/** What a run of either script guarantees, proved for every plan, every
    conflict policy and every behaviour of the outside world. Positions in a
    trace are command numbers, so `world(k)` is the outcome of `trace[k]`. */
module Properties {
  import opened Commands
  import opened Plans
  import opened Executor

  // ---------------------------------------------------------------------------
  // Vocabulary

  predicate IsRevert(c: Command, wd: string) { c == Render(Revert, wd) }

  predicate IsResolve(c: Command, wd: string) { c == Render(Resolve, wd) }

  predicate IsMerge(c: Command) { |c.argv| == 7 && c.argv[0] == "svn" && c.argv[1] == "merge" }

  predicate NoRevert(t: seq<Command>, wd: string)
  {
    forall k :: 0 <= k < |t| ==> !IsRevert(t[k], wd)
  }

  /** The merge commands of a trace, in the order they were issued. */
  function Merges(t: seq<Command>): seq<Command>
  {
    if t == [] then []
    else Merges(t[..|t| - 1]) + (if IsMerge(t[|t| - 1]) then [t[|t| - 1]] else [])
  }

  /** The merge commands for a list of revisions, one per entry, in list order. */
  function MergeCommands(p: Plan, revs: seq<Revision>): seq<Command>
  {
    if revs == [] then [] else [MergeCommand(p, revs[0])] + MergeCommands(p, revs[1..])
  }

  /** The most reverts a run can issue: the strict script has two nested
      handlers around a merge, the interactive one three. */
  function MaxReverts(policy: Policy): nat
  {
    if policy == Strict then 2 else 3
  }

  /** A failed command that does not abort the run: under the interactive
      policy a failed merge is handed to the resolution tool. */
  predicate Tolerated(policy: Policy, c: Command, o: Outcome)
  {
    o == Ok || (policy == Interactive && IsMerge(c))
  }

  /** The revert discipline of a run: reverts come last; a revert is followed
      by another only when it failed; a run that does not end normally ends
      with a revert, whose outcome decides between `sys.exit(1)` and an
      exception; a run that ends normally issued no revert. */
  predicate Disciplined(r: Run, wd: string, world: World)
  {
    var t := r.trace;
    && (forall j, k :: 0 <= j < k < |t| && IsRevert(t[j], wd) ==> IsRevert(t[k], wd))
    && (forall k :: 0 <= k < |t| - 1 && IsRevert(t[k], wd) ==> world(k) == Fail)
    && (r.signal == Returned ==> NoRevert(t, wd))
    && (r.signal != Returned ==>
          |t| > 0 && IsRevert(t[|t| - 1], wd)
          && r.signal == (if world(|t| - 1) == Ok then SysExit(1) else Raised))
  }

  // ---------------------------------------------------------------------------
  // One iteration of the loop

  /** The five ways one iteration of main's loop can go. */
  lemma StepShape(p: Plan, policy: Policy, world: World, rev: Revision, t: seq<Command>)
    ensures var n, m, wd := |t|, MergeCommand(p, rev), p.workingDir;
      var tool, rv, step := Render(Resolve, wd), Render(Revert, wd), StepRun(p, policy, world, rev, t);
      && (world(n) == Ok ==> step == Run(t + [m], Returned))
      && (world(n) == Fail && policy == Strict ==>
            step == Run(t + [m, rv], if world(n + 1) == Ok then SysExit(1) else Raised))
      && (world(n) == Fail && policy == Interactive && world(n + 1) == Ok ==>
            step == Run(t + [m, tool], Returned))
      && (world(n) == Fail && policy == Interactive && world(n + 1) == Fail && world(n + 2) == Ok ==>
            step == Run(t + [m, tool, rv], SysExit(1)))
      && (world(n) == Fail && policy == Interactive && world(n + 1) == Fail && world(n + 2) == Fail ==>
            step == Run(t + [m, tool, rv, rv], if world(n + 3) == Ok then SysExit(1) else Raised))
  {
  }

  // ---------------------------------------------------------------------------
  // Reverts

  lemma {:induction false} LoopReverts(p: Plan, policy: Policy, world: World, i: nat, t: seq<Command>)
    requires i <= |p.revisions|
    requires NoRevert(t, p.workingDir)
    ensures var r := LoopRun(p, policy, world, i, t);
      Disciplined(r, p.workingDir, world)
      && forall k :: 0 <= k < |r.trace| - (MaxReverts(policy) - 1) ==> !IsRevert(r.trace[k], p.workingDir)
    decreases |p.revisions| - i
  {
    if i < |p.revisions| {
      StepShape(p, policy, world, p.revisions[i], t);
      var step := StepRun(p, policy, world, p.revisions[i], t);
      if step.signal == Returned {
        LoopReverts(p, policy, world, i + 1, step.trace);
      }
    }
  }

  /** An `except Exception:` clause that reverts and exits keeps the discipline
      and adds at most one revert: it runs only after an exception, which is
      raised either before any revert or by a revert that failed. */
  lemma HandledKeepsDiscipline(r: Run, wd: string, world: World, bound: nat)
    requires (r.signal == Raised && NoRevert(r.trace, wd))
          || (Disciplined(r, wd, world)
              && forall k :: 0 <= k < |r.trace| - bound ==> !IsRevert(r.trace[k], wd))
    ensures var h := Handled(r, wd, world);
      Disciplined(h, wd, world)
      && forall k :: 0 <= k < |h.trace| - (bound + 1) ==> !IsRevert(h.trace[k], wd)
  {
  }

  /** The revert discipline of a whole run after validation, with the bound on
      how many reverts the nested handlers can issue. */
  lemma RevertDiscipline(p: Plan, policy: Policy, world: World)
    ensures var r := Execute(p, policy, world);
      Disciplined(r, p.workingDir, world)
      && forall k :: 0 <= k < |r.trace| - MaxReverts(policy) ==> !IsRevert(r.trace[k], p.workingDir)
  {
    var wd := p.workingDir;
    var sw, up := Render(Switch(p.targetBranch), wd), Render(Update, wd);
    var tried := TryRun(p, policy, world);
    if world(0) == Fail {
      assert tried == Run([sw], Raised);
    } else if world(1) == Fail {
      assert tried == Run([sw, up], Raised);
    } else {
      assert [] + [sw] + [up] == [sw, up];
      assert tried == LoopRun(p, policy, world, 0, [sw, up]);
      LoopReverts(p, policy, world, 0, [sw, up]);
    }
    HandledKeepsDiscipline(tried, wd, world, MaxReverts(policy) - 1);
  }

  /** The exit status is 0 or 1; it is 0 exactly when no revert was issued, and
      a run that exits 1 after validation has a revert as its last command. */
  lemma FailureEndsWithRevert(p: Plan, policy: Policy, world: World)
    ensures var r := Execute(p, policy, world); var t := r.trace;
      && (ExitStatus(r.signal) == 0 || ExitStatus(r.signal) == 1)
      && (ExitStatus(r.signal) == 0 <==> NoRevert(t, p.workingDir))
      && (ExitStatus(r.signal) == 1 ==> |t| > 0 && t[|t| - 1] == Render(Revert, p.workingDir))
  {
    RevertDiscipline(p, policy, world);
  }

  /** Nothing but reverts is issued once a revert has been issued, and there are
      at most two (strict) or three (interactive) of them. */
  lemma NothingAfterRevert(p: Plan, policy: Policy, world: World)
    ensures var t := Execute(p, policy, world).trace; var wd := p.workingDir;
      && (forall j, k :: 0 <= j < k < |t| && IsRevert(t[j], wd) ==> IsRevert(t[k], wd))
      && (forall k :: 0 <= k < |t| - MaxReverts(policy) ==> !IsRevert(t[k], wd))
  {
    RevertDiscipline(p, policy, world);
  }

  /** A revert is followed by another command only when that revert itself
      failed (its exception reached an enclosing handler); a successful revert
      is followed by `sys.exit(1)`, which no handler catches. */
  lemma RevertRepeatedOnlyOnFailure(p: Plan, policy: Policy, world: World)
    ensures var r := Execute(p, policy, world); var t := r.trace;
      forall k :: 0 <= k < |t| && IsRevert(t[k], p.workingDir) && world(k) == Ok ==>
        k == |t| - 1 && r.signal == SysExit(1)
  {
    RevertDiscipline(p, policy, world);
  }

  /** If every revert succeeds, a run that fails after validation issues exactly
      one revert, as its last command. */
  lemma ExactlyOneRevert(p: Plan, policy: Policy, world: World)
    requires ExitStatus(Execute(p, policy, world).signal) != 0
    requires forall k ::
      (0 <= k < |Execute(p, policy, world).trace| && IsRevert(Execute(p, policy, world).trace[k], p.workingDir))
      ==> world(k) == Ok
    ensures var t := Execute(p, policy, world).trace;
      |t| > 0 && IsRevert(t[|t| - 1], p.workingDir) && NoRevert(t[..|t| - 1], p.workingDir)
  {
    RevertDiscipline(p, policy, world);
  }

  // ---------------------------------------------------------------------------
  // Merges: one per revision, in list order

  lemma MergesSnoc(t: seq<Command>, c: Command)
    ensures Merges(t + [c]) == Merges(t) + (if IsMerge(c) then [c] else [])
  {
  }

  /** Which commands are merge commands. */
  lemma MergeKinds(p: Plan, rev: Revision, b: string, wd: string)
    ensures IsMerge(MergeCommand(p, rev))
    ensures !IsMerge(Render(Switch(b), wd)) && !IsMerge(Render(Update, wd))
    ensures !IsMerge(Render(Revert, wd)) && !IsMerge(Render(Resolve, wd))
  {
  }

  /** An iteration adds exactly one merge command, that of its revision. */
  lemma StepMerges(p: Plan, policy: Policy, world: World, rev: Revision, t: seq<Command>)
    ensures Merges(StepRun(p, policy, world, rev, t).trace) == Merges(t) + [MergeCommand(p, rev)]
  {
    StepShape(p, policy, world, rev, t);
    var n, m, wd := |t|, MergeCommand(p, rev), p.workingDir;
    var tool, rv := Render(Resolve, wd), Render(Revert, wd);
    var after := StepRun(p, policy, world, rev, t).trace;
    MergeKinds(p, rev, "", wd);
    MergesSnoc(t, m);
    var merged := Merges(t) + [m];
    assert Merges(t + [m]) == merged;
    if world(n) == Fail {
      if policy == Strict {
        assert after == (t + [m]) + [rv];
        MergesSnoc(t + [m], rv);
      } else {
        MergesSnoc(t + [m], tool);
        assert Merges(t + [m] + [tool]) == merged;
        if world(n + 1) == Ok {
          assert after == t + [m] + [tool];
        } else {
          MergesSnoc(t + [m] + [tool], rv);
          assert Merges(t + [m] + [tool] + [rv]) == merged;
          if world(n + 2) == Ok {
            assert after == t + [m] + [tool] + [rv];
          } else {
            MergesSnoc(t + [m] + [tool] + [rv], rv);
            assert after == t + [m] + [tool] + [rv] + [rv];
          }
        }
      }
    }
  }

  /** The list of merge commands has one entry per revision, in list order:
      nothing is sorted and a repeated revision is merged twice. */
  lemma {:induction false} MergeCommandsInOrder(p: Plan, revs: seq<Revision>)
    ensures |MergeCommands(p, revs)| == |revs|
    ensures forall k :: 0 <= k < |revs| ==> MergeCommands(p, revs)[k] == MergeCommand(p, revs[k])
  {
    if revs != [] {
      MergeCommandsInOrder(p, revs[1..]);
    }
  }

  lemma MergeCommandsSplit(p: Plan, revs: seq<Revision>, i: nat)
    requires i < |revs|
    ensures MergeCommands(p, revs[i..]) == [MergeCommand(p, revs[i])] + MergeCommands(p, revs[i + 1..])
  {
  }

  lemma {:induction false} LoopMerges(p: Plan, policy: Policy, world: World, i: nat, t: seq<Command>)
    requires i <= |p.revisions|
    ensures var r := LoopRun(p, policy, world, i, t);
      Merges(r.trace) <= Merges(t) + MergeCommands(p, p.revisions[i..])
      && (r.signal == Returned ==> Merges(r.trace) == Merges(t) + MergeCommands(p, p.revisions[i..]))
    decreases |p.revisions| - i
  {
    if i < |p.revisions| {
      var step := StepRun(p, policy, world, p.revisions[i], t);
      var rest := MergeCommands(p, p.revisions[i + 1..]);
      StepMerges(p, policy, world, p.revisions[i], t);
      MergeCommandsSplit(p, p.revisions, i);
      assert Merges(t) + MergeCommands(p, p.revisions[i..]) == Merges(step.trace) + rest;
      if step.signal == Returned {
        assert LoopRun(p, policy, world, i, t) == LoopRun(p, policy, world, i + 1, step.trace);
        LoopMerges(p, policy, world, i + 1, step.trace);
      } else {
        assert LoopRun(p, policy, world, i, t) == step;
      }
    }
  }

  /** The handler around a block adds no merge and keeps a normal end normal. */
  lemma HandledMerges(r: Run, wd: string, world: World)
    ensures Merges(Handled(r, wd, world).trace) == Merges(r.trace)
    ensures Handled(r, wd, world).signal == Returned <==> r.signal == Returned
  {
  }

  lemma TryMerges(p: Plan, policy: Policy, world: World)
    ensures var r := TryRun(p, policy, world);
      Merges(r.trace) <= MergeCommands(p, p.revisions)
      && (r.signal == Returned ==> Merges(r.trace) == MergeCommands(p, p.revisions))
  {
    var wd := p.workingDir;
    var sw, up := Render(Switch(p.targetBranch), wd), Render(Update, wd);
    MergeKinds(p, Number(0), p.targetBranch, wd);
    MergesSnoc([], sw);
    assert [] + [sw] == [sw];
    if world(0) == Ok {
      MergesSnoc([sw], up);
      assert [sw] + [up] == [sw, up];
      if world(1) == Ok {
        LoopMerges(p, policy, world, 0, [sw, up]);
        assert p.revisions[0..] == p.revisions;
      }
    }
  }

  /** The merges a run issues are the merges of a prefix of the revision list,
      in list order; a run that ends normally merged every revision. */
  lemma MergesInListOrder(p: Plan, policy: Policy, world: World)
    ensures var r := Execute(p, policy, world);
      Merges(r.trace) <= MergeCommands(p, p.revisions)
      && (r.signal == Returned ==> Merges(r.trace) == MergeCommands(p, p.revisions))
  {
    TryMerges(p, policy, world);
    HandledMerges(TryRun(p, policy, world), p.workingDir, world);
  }

  /** Iterations whose merge succeeds each add their merge command and nothing else. */
  lemma {:induction false} LoopMergesSucceed(p: Plan, policy: Policy, world: World, i: nat, j: nat, t: seq<Command>)
    requires i <= j <= |p.revisions|
    requires forall n :: |t| <= n < |t| + (j - i) ==> world(n) == Ok
    ensures LoopRun(p, policy, world, i, t) == LoopRun(p, policy, world, j, t + MergeCommands(p, p.revisions[i..j]))
    decreases j - i
  {
    if i < j {
      var m := MergeCommand(p, p.revisions[i]);
      StepShape(p, policy, world, p.revisions[i], t);
      LoopMergesSucceed(p, policy, world, i + 1, j, t + [m]);
      assert p.revisions[i..j][1..] == p.revisions[i + 1..j];
      assert t + [m] + MergeCommands(p, p.revisions[i + 1..j]) == t + MergeCommands(p, p.revisions[i..j]);
    } else {
      assert t + MergeCommands(p, p.revisions[i..j]) == t;
    }
  }

  /** When every command succeeds the run is exactly: switch to the target
      branch, update, one merge per revision in list order; no revert, exit 0. */
  lemma AllCommandsSucceed(p: Plan, policy: Policy, world: World)
    requires forall n :: world(n) == Ok
    ensures Execute(p, policy, world) ==
      Run([Render(Switch(p.targetBranch), p.workingDir), Render(Update, p.workingDir)]
          + MergeCommands(p, p.revisions), Returned)
  {
    var sw, up := Render(Switch(p.targetBranch), p.workingDir), Render(Update, p.workingDir);
    assert [] + [sw] + [up] == [sw, up];
    LoopMergesSucceed(p, policy, world, 0, |p.revisions|, [sw, up]);
    assert p.revisions[0..|p.revisions|] == p.revisions;
  }

  // ---------------------------------------------------------------------------
  // Failures

  /** A failed switch or update: no merge and no resolution tool, one revert,
      exit status 1. The revert is repeated by no one: if it fails, its
      exception leaves the script uncaught. */
  lemma SwitchOrUpdateFailure(p: Plan, policy: Policy, world: World)
    ensures var wd := p.workingDir;
      var sw, up, rv := Render(Switch(p.targetBranch), wd), Render(Update, wd), Render(Revert, wd);
      var r := Execute(p, policy, world);
      && (world(0) == Fail ==> r.trace == [sw, rv] && r.signal == (if world(1) == Ok then SysExit(1) else Raised))
      && (world(0) == Ok && world(1) == Fail ==>
            r.trace == [sw, up, rv] && r.signal == (if world(2) == Ok then SysExit(1) else Raised))
  {
  }

  /** Under the strict policy, when the merge of revision i is the first command
      to fail, the merges of the revisions before it and of revision i are
      followed by a revert, repeated only if it failed; no later revision is
      merged and the exit status is 1. */
  lemma StrictMergeFailure(p: Plan, world: World, i: nat)
    requires i < |p.revisions|
    requires forall n: nat :: n < 2 + i ==> world(n) == Ok
    requires world(2 + i) == Fail
    ensures var wd := p.workingDir;
      var sw, up, rv := Render(Switch(p.targetBranch), wd), Render(Update, wd), Render(Revert, wd);
      var r := Execute(p, Strict, world);
      && r.trace == [sw, up] + MergeCommands(p, p.revisions[..i]) + [MergeCommand(p, p.revisions[i]), rv]
                    + (if world(3 + i) == Ok then [] else [rv])
      && ExitStatus(r.signal) == 1
  {
    var wd := p.workingDir;
    var sw, up, rv := Render(Switch(p.targetBranch), wd), Render(Update, wd), Render(Revert, wd);
    var m := MergeCommand(p, p.revisions[i]);
    assert [] + [sw] + [up] == [sw, up];
    LoopMergesSucceed(p, Strict, world, 0, i, [sw, up]);
    assert p.revisions[0..i] == p.revisions[..i];
    var t := [sw, up] + MergeCommands(p, p.revisions[..i]);
    MergeCommandsInOrder(p, p.revisions[..i]);
    StepShape(p, Strict, world, p.revisions[i], t);
    assert TryRun(p, Strict, world) == Run(t + [m, rv], if world(3 + i) == Ok then SysExit(1) else Raised);
  }

  /** Under the interactive policy, wherever the loop stands (after any earlier
      merges, settled conflicts included): if the merge of revision i fails and
      the resolution tool launched for it fails too, a revert follows, repeated
      by `main`'s inner handler only if it failed; the loop stops there, so no
      later revision is merged, and the run exits 1 whatever the outer handler
      then does. */
  lemma InteractiveToolFailure(p: Plan, world: World, i: nat, t: seq<Command>)
    requires i < |p.revisions|
    requires world(|t|) == Fail && world(|t| + 1) == Fail
    ensures var wd := p.workingDir; var rv := Render(Revert, wd);
      var r := LoopRun(p, Interactive, world, i, t);
      && r.trace == t + [MergeCommand(p, p.revisions[i]), Render(Resolve, wd), rv]
                      + (if world(|t| + 2) == Ok then [] else [rv])
      && r.signal == (if world(|t| + 2) == Ok || world(|t| + 3) == Ok then SysExit(1) else Raised)
      && ExitStatus(Handled(r, wd, world).signal) == 1
  {
    var wd := p.workingDir;
    var m, tool, rv := MergeCommand(p, p.revisions[i]), Render(Resolve, wd), Render(Revert, wd);
    StepShape(p, Interactive, world, p.revisions[i], t);
    if world(|t| + 2) == Fail {
      assert t + [m, tool, rv, rv] == t + [m, tool, rv] + [rv];
    } else {
      assert t + [m, tool, rv] == t + [m, tool, rv] + [];
    }
  }

  /** Under the interactive policy, a failed merge whose resolution tool exits 0
      counts as merged: the loop goes on with the next revision, with no check
      that the conflict was resolved. */
  lemma ToolSuccessContinues(p: Plan, world: World, i: nat, t: seq<Command>)
    requires i < |p.revisions|
    requires world(|t|) == Fail && world(|t| + 1) == Ok
    ensures LoopRun(p, Interactive, world, i, t)
         == LoopRun(p, Interactive, world, i + 1, t + [MergeCommand(p, p.revisions[i]), Render(Resolve, p.workingDir)])
  {
    StepShape(p, Interactive, world, p.revisions[i], t);
  }

  // ---------------------------------------------------------------------------
  // Which commands a run issues

  /** The commands the merge loop of plan `p` may issue: revert, a merge of one
      of the plan's revisions from the source branch, and (interactive policy
      only) the resolution tool, all on the plan's working copy. */
  predicate LoopCommand(c: Command, p: Plan, policy: Policy)
  {
    var wd := p.workingDir;
    || c == Render(Revert, wd)
    || (policy == Interactive && c == Render(Resolve, wd))
    || exists k :: 0 <= k < |p.revisions| && c == MergeCommand(p, p.revisions[k])
  }

  /** The commands a run of plan `p` may issue: switch to the target branch,
      update, and the loop's commands. */
  predicate Issuable(c: Command, p: Plan, policy: Policy)
  {
    var wd := p.workingDir;
    || c == Render(Switch(p.targetBranch), wd)
    || c == Render(Update, wd)
    || LoopCommand(c, p, policy)
  }

  predicate AllIssuable(t: seq<Command>, p: Plan, policy: Policy)
  {
    forall k :: 0 <= k < |t| ==> Issuable(t[k], p, policy)
  }

  /** The loop keeps the commands it started from and adds only loop commands. */
  lemma {:induction false} LoopAppends(p: Plan, policy: Policy, world: World, i: nat, t: seq<Command>)
    requires i <= |p.revisions|
    ensures var r := LoopRun(p, policy, world, i, t);
      && |r.trace| >= |t| && r.trace[..|t|] == t
      && forall k :: |t| <= k < |r.trace| ==> LoopCommand(r.trace[k], p, policy)
    decreases |p.revisions| - i
  {
    if i < |p.revisions| {
      StepShape(p, policy, world, p.revisions[i], t);
      assert LoopCommand(MergeCommand(p, p.revisions[i]), p, policy);
      var step := StepRun(p, policy, world, p.revisions[i], t);
      assert step.trace[..|t|] == t;
      if step.signal == Returned {
        LoopAppends(p, policy, world, i + 1, step.trace);
        var r := LoopRun(p, policy, world, i + 1, step.trace);
        assert r.trace[..|t|] == r.trace[..|step.trace|][..|t|];
      }
    }
  }

  /** The loop issues no switch and no update: after the commands it started
      from come only merges of the plan's revisions, the tool (interactive
      only) and reverts. */
  lemma LoopIssuable(p: Plan, policy: Policy, world: World, i: nat, t: seq<Command>)
    requires i <= |p.revisions|
    requires AllIssuable(t, p, policy)
    ensures var r := LoopRun(p, policy, world, i, t);
      && AllIssuable(r.trace, p, policy)
      && |r.trace| >= |t| && r.trace[..|t|] == t
      && forall k :: |t| <= k < |r.trace| ==> LoopCommand(r.trace[k], p, policy)
  {
    LoopAppends(p, policy, world, i, t);
    var r := LoopRun(p, policy, world, i, t);
    forall k | 0 <= k < |r.trace|
      ensures Issuable(r.trace[k], p, policy)
    {
      if k < |t| {
        assert r.trace[k] == r.trace[..|t|][k];
      }
    }
  }

  /** Every command of a run is one the plan calls for; the strict script
      never launches the resolution tool. */
  lemma OnlyPlannedCommands(p: Plan, policy: Policy, world: World)
    ensures AllIssuable(Execute(p, policy, world).trace, p, policy)
  {
    var wd := p.workingDir;
    var sw, up := Render(Switch(p.targetBranch), wd), Render(Update, wd);
    assert [] + [sw] + [up] == [sw, up];
    var tried := TryRun(p, policy, world);
    if world(0) == Ok && world(1) == Ok {
      LoopIssuable(p, policy, world, 0, [sw, up]);
    }
    assert AllIssuable(tried.trace, p, policy);
  }

  /** Every command of a run names the plan's working copy: the svn commands run
      in it, and the resolution tool inherits the current directory of the
      Python process, with the working copy given as its `/path:` argument. */
  lemma CommandsTargetWorkingCopy(p: Plan, policy: Policy, world: World)
    ensures var t := Execute(p, policy, world).trace;
      forall k :: 0 <= k < |t| ==>
        && Decode(t[k]).Some? && Decode(t[k]).value.wd == p.workingDir
        && t[k].cwd == (if t[k].argv[0] == "svn" then Some(p.workingDir) else None)
  {
    var t := Execute(p, policy, world).trace;
    OnlyPlannedCommands(p, policy, world);
    forall k | 0 <= k < |t|
      ensures Decode(t[k]).Some? && Decode(t[k]).value.wd == p.workingDir
    {
      var wd := p.workingDir;
      if t[k] == Render(Switch(p.targetBranch), wd) {
        DecodeRender(Switch(p.targetBranch), wd);
      } else if t[k] == Render(Update, wd) {
        DecodeRender(Update, wd);
      } else if t[k] == Render(Revert, wd) {
        DecodeRender(Revert, wd);
      } else if t[k] == Render(Resolve, wd) {
        DecodeRender(Resolve, wd);
      } else {
        var j :| 0 <= j < |p.revisions| && t[k] == MergeCommand(p, p.revisions[j]);
        DecodeRender(Merge(RevisionText(p.revisions[j]), p.sourceBranch), wd);
      }
    }
  }

  // ---------------------------------------------------------------------------
  // Exit status 0

  predicate AllTolerated(t: seq<Command>, policy: Policy, world: World)
  {
    forall k :: 0 <= k < |t| ==> Tolerated(policy, t[k], world(k))
  }

  lemma {:induction false} LoopTolerated(p: Plan, policy: Policy, world: World, i: nat, t: seq<Command>)
    requires i <= |p.revisions|
    requires AllTolerated(t, policy, world)
    ensures var r := LoopRun(p, policy, world, i, t);
      r.signal == Returned <==> AllTolerated(r.trace, policy, world)
    decreases |p.revisions| - i
  {
    if i < |p.revisions| {
      var n, wd := |t|, p.workingDir;
      MergeKinds(p, p.revisions[i], "", wd);
      StepShape(p, policy, world, p.revisions[i], t);
      var step := StepRun(p, policy, world, p.revisions[i], t);
      if step.signal == Returned {
        assert AllTolerated(step.trace, policy, world);
        LoopTolerated(p, policy, world, i + 1, step.trace);
      } else if policy == Strict {
        assert !Tolerated(policy, step.trace[n], world(n));
      } else {
        assert !Tolerated(policy, step.trace[n + 1], world(n + 1));
      }
    }
  }

  /** A run exits 0 exactly when every command it issued succeeded, except
      that under the interactive policy a merge may fail (the resolution tool
      then runs and must itself succeed). Under the strict policy: exit 0
      exactly when no command failed. */
  lemma ExitZeroIffFailuresTolerated(p: Plan, policy: Policy, world: World)
    ensures var r := Execute(p, policy, world);
      ExitStatus(r.signal) == 0 <==> AllTolerated(r.trace, policy, world)
  {
    var wd := p.workingDir;
    var sw, up := Render(Switch(p.targetBranch), wd), Render(Update, wd);
    MergeKinds(p, Number(0), p.targetBranch, wd);
    assert [] + [sw] + [up] == [sw, up];
    var r := Execute(p, policy, world);
    RevertDiscipline(p, policy, world);
    if world(0) == Fail {
      assert !Tolerated(policy, r.trace[0], world(0));
    } else if world(1) == Fail {
      assert !Tolerated(policy, r.trace[1], world(1));
    } else {
      var looped := LoopRun(p, policy, world, 0, [sw, up]);
      LoopTolerated(p, policy, world, 0, [sw, up]);
      if looped.signal == Raised {
        assert r.trace[..|looped.trace|] == looped.trace;
      }
    }
  }

  // ---------------------------------------------------------------------------
  // What follows a failed merge

  /** The command that answers a failed merge. */
  function FollowUp(policy: Policy, wd: string): Command
  {
    if policy == Strict then Render(Revert, wd) else Render(Resolve, wd)
  }

  /** How the command at position k sits among its neighbours: the strict
      script answers a failed merge with a revert, the interactive one with
      the resolution tool; the tool runs only right after a failed merge; a
      failed tool is answered with a revert; after a tool that exited 0 the
      next command is a merge, or the run ends normally. */
  predicate LinkedAt(r: Run, p: Plan, policy: Policy, world: World, k: nat)
    requires k < |r.trace|
  {
    var t, wd := r.trace, p.workingDir;
    && (IsMerge(t[k]) && world(k) == Fail ==> k + 1 < |t| && t[k + 1] == FollowUp(policy, wd))
    && (IsResolve(t[k], wd) ==> policy == Interactive && 0 < k && IsMerge(t[k - 1]) && world(k - 1) == Fail)
    && (IsResolve(t[k], wd) && world(k) == Fail ==> k + 1 < |t| && IsRevert(t[k + 1], wd))
    && (IsResolve(t[k], wd) && world(k) == Ok ==>
          (k + 1 < |t| && IsMerge(t[k + 1])) || (k + 1 == |t| && r.signal == Returned))
  }

  predicate Linked(r: Run, p: Plan, policy: Policy, world: World)
  {
    forall k :: 0 <= k < |r.trace| ==> LinkedAt(r, p, policy, world, k)
  }

  /** A linked run that ended normally stays linked when commands starting with
      a merge are appended, provided each appended command is linked. */
  lemma LinkedExtend(r: Run, u: seq<Command>, sig: Signal, p: Plan, policy: Policy, world: World)
    requires r.signal == Returned && Linked(r, p, policy, world)
    requires |u| > 0 && IsMerge(u[0])
    requires forall k :: |r.trace| <= k < |r.trace| + |u| ==> LinkedAt(Run(r.trace + u, sig), p, policy, world, k)
    ensures Linked(Run(r.trace + u, sig), p, policy, world)
  {
    var t := r.trace;
    var r' := Run(t + u, sig);
    forall k | 0 <= k < |t + u|
      ensures LinkedAt(r', p, policy, world, k)
    {
      if k < |t| {
        assert LinkedAt(r, p, policy, world, k);
        assert r'.trace[k] == t[k];
        if k + 1 < |t| {
          assert r'.trace[k + 1] == t[k + 1];
        } else {
          assert r'.trace[k + 1] == u[0];
        }
        if 0 < k {
          assert r'.trace[k - 1] == t[k - 1];
        }
      }
    }
  }

  /** The revert of an `except Exception:` clause keeps a run linked. */
  lemma HandledLinked(r: Run, p: Plan, policy: Policy, world: World)
    requires Linked(r, p, policy, world)
    ensures Linked(Handled(r, p.workingDir, world), p, policy, world)
  {
    var wd := p.workingDir;
    var h := Handled(r, wd, world);
    MergeKinds(p, Number(0), "", wd);
    if r.signal == Raised {
      forall k | 0 <= k < |h.trace|
        ensures LinkedAt(h, p, policy, world, k)
      {
        if k < |r.trace| {
          assert LinkedAt(r, p, policy, world, k);
          assert h.trace[k] == r.trace[k];
          if k + 1 < |r.trace| {
            assert h.trace[k + 1] == r.trace[k + 1];
          }
          if 0 < k {
            assert h.trace[k - 1] == r.trace[k - 1];
          }
        }
      }
    }
  }

  lemma StepLinked(p: Plan, policy: Policy, world: World, rev: Revision, t: seq<Command>)
    requires Linked(Run(t, Returned), p, policy, world)
    ensures Linked(StepRun(p, policy, world, rev, t), p, policy, world)
  {
    var n, wd := |t|, p.workingDir;
    var m, tool, rv := MergeCommand(p, rev), Render(Resolve, wd), Render(Revert, wd);
    MergeKinds(p, rev, "", wd);
    StepShape(p, policy, world, rev, t);
    var step := StepRun(p, policy, world, rev, t);
    var u := step.trace[n..];
    assert step.trace == t + u;
    forall k | n <= k < |t + u|
      ensures LinkedAt(Run(t + u, step.signal), p, policy, world, k)
    {
    }
    LinkedExtend(Run(t, Returned), u, step.signal, p, policy, world);
  }

  lemma {:induction false} LoopLinked(p: Plan, policy: Policy, world: World, i: nat, t: seq<Command>)
    requires i <= |p.revisions|
    requires Linked(Run(t, Returned), p, policy, world)
    ensures Linked(LoopRun(p, policy, world, i, t), p, policy, world)
    decreases |p.revisions| - i
  {
    if i < |p.revisions| {
      var step := StepRun(p, policy, world, p.revisions[i], t);
      StepLinked(p, policy, world, p.revisions[i], t);
      if step.signal == Returned {
        LoopLinked(p, policy, world, i + 1, step.trace);
      }
    }
  }

  /** The command after a failed merge, and where the resolution tool appears,
      in a whole run. */
  lemma FailedMergeFollowUp(p: Plan, policy: Policy, world: World)
    ensures Linked(Execute(p, policy, world), p, policy, world)
  {
    var wd := p.workingDir;
    var sw, up := Render(Switch(p.targetBranch), wd), Render(Update, wd);
    MergeKinds(p, Number(0), p.targetBranch, wd);
    assert [] + [sw] + [up] == [sw, up];
    var tried := TryRun(p, policy, world);
    if world(0) == Fail {
      assert LinkedAt(tried, p, policy, world, 0);
    } else {
      assert LinkedAt(Run([sw, up], Returned), p, policy, world, 0);
      assert LinkedAt(Run([sw, up], Returned), p, policy, world, 1);
      if world(1) == Fail {
        assert LinkedAt(tried, p, policy, world, 0);
        assert LinkedAt(tried, p, policy, world, 1);
      } else {
        LoopLinked(p, policy, world, 0, [sw, up]);
      }
    }
    HandledLinked(tried, p, policy, world);
  }

  // ---------------------------------------------------------------------------
  // Validation and revision text

  /** A run issues no command at all exactly when the configuration is missing,
      unreadable or rejected, and then exits 1; a validated run begins with the
      switch to the target branch, followed by the update if the switch succeeded. */
  lemma ValidationGate(config: Option<Config>, policy: Policy, world: World)
    ensures var r := Expected(config, policy, world);
      && (r.trace == [] <==> config.None? || Validate(config.value).None?)
      && (r.trace == [] ==> r.signal == SysExit(1))
      && (config.Some? && Validate(config.value).Some? ==>
            var p := Validate(config.value).value;
            r.trace[0] == Render(Switch(p.targetBranch), p.workingDir)
            && (world(0) == Ok ==> |r.trace| > 1 && r.trace[1] == Render(Update, p.workingDir)))
  {
    if config.Some? && Validate(config.value).Some? {
      RunStart(Validate(config.value).value, policy, world);
    }
  }

  /** A validated run starts with the switch to the target branch, then the update
      if the switch succeeded. */
  lemma RunStart(p: Plan, policy: Policy, world: World)
    ensures var r := Execute(p, policy, world);
      && |r.trace| > 0 && r.trace[0] == Render(Switch(p.targetBranch), p.workingDir)
      && (world(0) == Ok ==> |r.trace| > 1 && r.trace[1] == Render(Update, p.workingDir))
  {
    var sw, up := Render(Switch(p.targetBranch), p.workingDir), Render(Update, p.workingDir);
    var tried := TryRun(p, policy, world);
    assert [] + [sw] == [sw];
    if world(0) == Ok && world(1) == Ok {
      assert [sw] + [up] == [sw, up];
      assert tried == LoopRun(p, policy, world, 0, [sw, up]);
      LoopPrefix(p, policy, world, 0, [sw, up]);
      assert tried.trace[..2] == [sw, up];
    }
    assert |tried.trace| > 0 && tried.trace[0] == sw;
    assert world(0) == Ok ==> |tried.trace| > 1 && tried.trace[1] == up;
    var r := Execute(p, policy, world);
    assert |r.trace| >= |tried.trace| && r.trace[..|tried.trace|] == tried.trace;
  }

  /** The loop only appends to the commands issued before it. */
  lemma {:induction false} LoopPrefix(p: Plan, policy: Policy, world: World, i: nat, t: seq<Command>)
    requires i <= |p.revisions|
    ensures var r := LoopRun(p, policy, world, i, t);
      |r.trace| >= |t| && r.trace[..|t|] == t
    decreases |p.revisions| - i
  {
    if i < |p.revisions| {
      var step := StepRun(p, policy, world, p.revisions[i], t);
      StepShape(p, policy, world, p.revisions[i], t);
      if step.signal == Returned {
        LoopPrefix(p, policy, world, i + 1, step.trace);
        assert step.trace[..|t|] == t;
      }
    }
  }

  /** The merge command for a revision is `svn merge -c <str(rev)> <source>
      --accept theirs-full`, run in the working copy, and reads back as exactly
      that merge. */
  lemma MergeCommandDecodes(p: Plan, rev: Revision)
    ensures var c := MergeCommand(p, rev);
      && Decode(c) == Some(Issued(Merge(RevisionText(rev), p.sourceBranch), p.workingDir))
      && c.cwd == Some(p.workingDir) && |c.argv| == 7
      && c.argv[3] == RevisionText(rev) && c.argv[4] == p.sourceBranch
  {
    DecodeRender(Merge(RevisionText(rev), p.sourceBranch), p.workingDir);
  }

  /** Two revisions that give the same merge command have the same str(); two
      integer revisions that give the same merge command are the same revision. */
  lemma MergeCommandInjective(p: Plan, r1: Revision, r2: Revision)
    requires MergeCommand(p, r1) == MergeCommand(p, r2)
    ensures RevisionText(r1) == RevisionText(r2)
    ensures r1.Number? && r2.Number? ==> r1 == r2
  {
    RenderInjective(Merge(RevisionText(r1), p.sourceBranch), p.workingDir,
                    Merge(RevisionText(r2), p.sourceBranch), p.workingDir);
    if r1.Number? && r2.Number? {
      IntTextInjective(r1.n, r2.n);
    }
  }
}
