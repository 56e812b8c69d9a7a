# Verified model of the SVN merge scripts

Two Python scripts merge a list of Subversion revisions from a source branch
into a working copy of a target branch:

- `SVNMerge.py` is the strict script. The first failed merge reverts the
  working copy and exits with status 1.
- `SVMMergeWithTortoise.py` is the interactive script. A failed merge launches
  `TortoiseProc.exe /command:resolve /path:<working copy>`. If the tool exits
  0, the revision counts as merged and the loop goes on.

Both scripts run the same steps in `main`:

1. Read four configuration fields. `revisions` defaults to `[]`.
2. Reject a plan with any falsy field (exit 1).
3. Run `svn switch` and then `svn update --set-depth infinity`.
4. Run `svn merge -c <rev> <source> --accept theirs-full` once per revision, in list order.
5. On failure, run `svn revert -R .` and then `sys.exit(1)`.

The model keeps the scripts' exception structure:

- `sys.exit` raises `SystemExit`, which the `except Exception:` clauses do not catch.
- A failing revert raises `RuntimeError`, which the enclosing handler does catch and answers with another revert.

The outside world is an oracle. `world(n)` is the outcome (`Ok` or `Fail`) of
the n-th command a run issues. A run is observed through two things:

- the trace: the sequence of commands it issued, each an argument vector plus a working directory;
- its `Signal`: a normal return, an uncaught exception (exit status 1), or `sys.exit(code)`.

Files:

- `commands.dfy` (module `Commands`): command vectors, a decoder for them, and Python's `str()` of a revision.
- `plan.dfy` (module `Plans`): the configuration fields and validation.
- `executor.dfy` (module `Executor`): the reference semantics of a run. Each function follows one Python function or block, and the two scripts share them, parameterised by `Policy`.
- `process.dfy` (module `Process`): `run_command`, issuing one command.
- `strict.dfy` (module `StrictMerge`) and `interactive.dfy` (module `InteractiveMerge`): each script's `main` and helpers as imperative methods. A trace variable is appended to command by command, and each method is proved equal to the reference semantics.
- `properties.dfy` (module `Properties`): what every run guarantees, for every plan, policy and world.
- `scenarios.dfy` (module `Scenarios`): concrete runs of the plan {`/branches/feature` → `/trunk`, working copy `/wc`, revisions 42 and 43}.

The methods modelling `main` are named `RunScript`.

One might expect a failed run to revert exactly once. The code reverts again whenever a revert itself fails, so a run that fails after validation issues one or two reverts (strict) or one to three (interactive); a run rejected by validation issues none. The model follows the code:

- `Properties.ExactlyOneRevert` states "exactly one" under the assumption that every revert succeeds.
- `Properties.RevertRepeatedOnlyOnFailure` and `Properties.NothingAfterRevert` state what happens when a revert fails.

## Model

| member | source | states |
|---|---|---|
| Commands.DecodeRender | SVNMerge.py:40-61 | every command the scripts build (switch, update, revert, merge, all run in the working copy) reads back as exactly its operation and working copy |
| Commands.RenderDecode | SVMMergeWithTortoise.py:60-65 | conversely, any command that reads back as an operation is that operation's command, including the resolution tool's vector run without a working directory |
| Commands.RenderInjective | SVMMergeWithTortoise.py:40-80 | two different operations or working copies never give the same command |
| Commands.NatTextValue | SVNMerge.py:89 | `str()` of a natural number is a non-empty digit string without a padding zero that denotes that number |
| Commands.IntTextInjective | SVMMergeWithTortoise.py:112 | two integer revisions with the same `str()` are equal |
| Commands.Render | SVNMerge.py:40-61 | the argument vectors of `svn_switch`, `svn_update`, `svn_revert` and `svn_merge`: each has at least three entries, starts with `svn` and runs in the working copy; the resolution tool's vector (SVMMergeWithTortoise.py:65) is the only one run without a directory, and it carries the working copy after `/path:` |
| Commands.IntText | SVNMerge.py:89 | `str()` of an integer: for a non-negative number, decimal digits that denote it; for a negative one, `-` followed by the digits of its magnitude |
| Commands.RevisionText | SVMMergeWithTortoise.py:112 | `str(revision)`: an integer revision gives its decimal text as `IntText` states; a string revision goes on the command line unchanged |
| Plans.Validate | SVNMerge.py:72-79 | a plan is accepted exactly when source, target and working directory are present and non-empty and the revision list (absent counts as empty) is non-empty; the accepted plan carries those values unchanged |
| Process.RunCommand | SVNMerge.py:20-38 | issues the command as the next entry of the trace; it returns normally exactly when the command succeeded and raises otherwise |
| Executor.IssueRun | SVNMerge.py:20-38 | `run_command` either returns normally, exactly when the command succeeded, or raises; nothing else |
| Executor.RevertExitRun | SVMMergeWithTortoise.py:55-58 | revert then `sys.exit(1)` never returns normally: it exits 1 when the revert succeeded and raises when it failed |
| Executor.Handled | SVNMerge.py:99-103 | an `except Exception:` clause that reverts and exits: a block that did not raise passes through unchanged; one that raised ends in `sys.exit(1)`, or in an exception if the revert failed; the result ends normally exactly when the block did |
| Executor.ResolveRun | SVMMergeWithTortoise.py:60-72 | the tool call returns normally exactly when the tool succeeded; otherwise it ends with status 1 |
| Executor.MergeRun | SVMMergeWithTortoise.py:74-84 | `svn_merge` returns normally exactly when the merge succeeded or, under the interactive policy, the tool launched for it succeeded |
| Executor.StepRun | SVNMerge.py:88-95 | one iteration ends normally exactly when its merge succeeded or (interactive) its tool succeeded; any other end has status 1 |
| Executor.LoopRun | SVNMerge.py:87-95 | the loop ends normally only after issuing at least one command per remaining revision; any other end has status 1 |
| Executor.TryRun | SVNMerge.py:82-97 | a failed switch raises with only the switch issued; a failed update raises with only switch and update issued; a normal end comes after at least two commands plus one per revision |
| Executor.Execute | SVNMerge.py:82-103 | after validation the exit status (`ExitStatus`: 0 for a normal end, 1 for an uncaught exception, the code of `sys.exit`) is 0 or 1, and status 0 comes after at least two commands plus one per revision |
| Executor.Expected | SVNMerge.py:63-103 | a run's exit status is 0 or 1, and a run that issued no command exits with `sys.exit(1)` |
| StrictMerge.RunScript | SVNMerge.py:63-103 | the strict `main` issues exactly the commands and ends exactly as the reference run `Expected(config, Strict, world)` |
| StrictMerge.MergeRevisions | SVNMerge.py:87-95 | the merge loop with its inner handler agrees with the reference loop from the first revision on |
| InteractiveMerge.ExitWithError | SVMMergeWithTortoise.py:55-58 | `existWithError` issues one revert; it then exits 1, or raises if that revert failed; it never returns normally |
| InteractiveMerge.ResolveWithTortoise | SVMMergeWithTortoise.py:60-72 | the tool's vector is issued next; the call returns normally exactly when the tool succeeded, and otherwise goes through `existWithError` |
| InteractiveMerge.SvnMerge | SVMMergeWithTortoise.py:74-84 | the merge command is issued next; a failed merge hands over to the resolution tool |
| InteractiveMerge.MergeOrExit | SVMMergeWithTortoise.py:111-117 | one loop iteration (`svn_merge` inside `try`, `existWithError` in the handler) agrees with the reference step |
| InteractiveMerge.MergeRevisions | SVMMergeWithTortoise.py:110-117 | the interactive merge loop agrees with the reference loop from the first revision on |
| InteractiveMerge.RunScript | SVMMergeWithTortoise.py:86-124 | the interactive `main` issues exactly the commands and ends exactly as `Expected(config, Interactive, world)` |
| Properties.StepShape | SVMMergeWithTortoise.py:74-84 | an iteration ends in one of five shapes: merge ok; strict: merge then revert; interactive: merge then tool ok; merge, tool, revert; merge, tool, revert, revert. Each shape comes with its signal |
| Properties.LoopReverts | SVNMerge.py:87-95 | the loop keeps the revert discipline, and its reverts all lie within its last command (strict) or its last two commands (interactive) |
| Properties.HandledKeepsDiscipline | SVNMerge.py:99-103 | the outer handler keeps the revert discipline and adds at most one revert |
| Properties.RevertDiscipline | SVNMerge.py:82-103 | for every validated run: reverts come last and each non-final revert failed; a normal end issued no revert; any other end has a revert as its last command, and that revert's outcome decides between exit 1 and an uncaught exception; at most 2 (strict) or 3 (interactive) reverts |
| Properties.FailureEndsWithRevert | SVNMerge.py:91-103 | the exit status (an uncaught exception exits 1) is 0 or 1; it is 0 exactly when no revert was issued; status 1 after validation means the last command is a revert |
| Properties.NothingAfterRevert | SVNMerge.py:94-95 | once a revert is issued, only reverts follow, at most 2 (strict) or 3 (interactive) in all |
| Properties.RevertRepeatedOnlyOnFailure | SVNMerge.py:94-102 | a revert that succeeds is the last command and the run ends with `sys.exit(1)`: `SystemExit` is not caught by `except Exception` |
| Properties.ExactlyOneRevert | SVMMergeWithTortoise.py:114-124 | if every revert succeeds, a failed validated run issues exactly one revert, as its last command |
| Properties.StepMerges | SVNMerge.py:88-95 | an iteration issues exactly one merge command, the one for its revision |
| Properties.MergeCommandsInOrder | SVNMerge.py:87-89 | the merge list has one entry per revision, the k-th for the k-th revision: no sorting, no deduplication |
| Properties.LoopMerges | SVNMerge.py:87-95 | the loop's merges are a prefix of the merges of the remaining revisions, and all of them when the loop ends normally |
| Properties.HandledMerges | SVNMerge.py:99-103 | the outer handler adds no merge and keeps a normal end normal |
| Properties.TryMerges | SVNMerge.py:82-95 | the merges of the outer `try` block are a prefix of the plan's merges, and all of them when it ends normally |
| Properties.MergesInListOrder | SVMMergeWithTortoise.py:110-112 | a run's merge commands are a prefix of one merge per revision in list order, and all of them when the run exits 0 |
| Properties.LoopMergesSucceed | SVNMerge.py:87-90 | iterations whose merges succeed each add exactly their merge command and continue |
| Properties.AllCommandsSucceed | SVNMerge.py:83-97 | when every command succeeds the trace is exactly switch(target), update, one merge per revision in order; no revert; exit 0 |
| Properties.SwitchOrUpdateFailure | SVNMerge.py:82-103 | a failed switch or update: no merge and no tool, a single revert, exit 1 (or an uncaught exception if the revert fails) |
| Properties.StrictMergeFailure | SVNMerge.py:87-95 | strict, first failure at the merge of revision i: the trace is switch, update, the merges up to i, then a revert, with a second revert only if the first failed; nothing for later revisions; exit 1 |
| Properties.InteractiveToolFailure | SVMMergeWithTortoise.py:60-72 | interactive, at any point of the loop, including after earlier conflicts the tool settled: if the merge of revision i and the tool launched for it both fail, the loop adds exactly merge, tool and revert, plus a second revert only if the first failed, and then stops, so no later revision is merged; it ends in `sys.exit(1)`, or in an exception if both reverts failed, and the run's exit status is 1 |
| Properties.ToolSuccessContinues | SVMMergeWithTortoise.py:110-113 | a failed merge whose tool exits 0 counts as merged: the loop continues with the next revision, with no check of the working copy |
| Properties.LoopAppends | SVNMerge.py:87-95 | the loop keeps the commands issued before it and appends only merges of the plan's revisions, the tool (interactive only) and reverts |
| Properties.LoopIssuable | SVNMerge.py:87-89 | the loop issues no switch and no update: it keeps the commands issued before it and appends only merges of the plan's revisions, the tool (interactive only) and reverts, so the whole trace stays among the commands a run of the plan may issue |
| Properties.OnlyPlannedCommands | SVMMergeWithTortoise.py:104-124 | every command of a run is the switch to the target branch, the update, a revert, a merge of a listed revision from the source branch, or (interactive only) the tool, all on the plan's working copy; the strict script never launches the tool |
| Properties.CommandsTargetWorkingCopy | SVNMerge.py:43-59 | every command names the plan's working copy: svn commands run in it, and the tool, given no directory, inherits the current directory of the Python process and gets the working copy as `/path:` |
| Properties.LoopTolerated | SVMMergeWithTortoise.py:110-117 | the loop ends normally exactly when each of its commands succeeded or was a merge absorbed by the tool |
| Properties.ExitZeroIffFailuresTolerated | SVMMergeWithTortoise.py:105-124 | a run exits 0 exactly when every command succeeded, except merges under the interactive policy; under the strict policy: exactly when no command failed |
| Properties.StepLinked | SVMMergeWithTortoise.py:74-84 | an iteration keeps the follow-up order around failed merges |
| Properties.LoopLinked | SVMMergeWithTortoise.py:110-117 | the loop keeps the follow-up order around failed merges |
| Properties.HandledLinked | SVMMergeWithTortoise.py:121-124 | the outer handler's revert keeps that order |
| Properties.FailedMergeFollowUp | SVMMergeWithTortoise.py:60-84 | in every run: a failed merge is followed by a revert (strict) or the tool (interactive); the tool appears only right after a failed merge and never under the strict policy; a failed tool is followed by a revert; a tool that exited 0 is followed by a merge or ends a normal run |
| Properties.ValidationGate | SVMMergeWithTortoise.py:92-107 | a run issues no command exactly when the configuration is missing, unreadable or rejected, and then exits 1; a validated run starts with the switch to the target branch, then the update if the switch succeeded |
| Properties.RunStart | SVNMerge.py:82-84 | a validated run starts with the switch to the target branch, then the update if the switch succeeded |
| Properties.LoopPrefix | SVNMerge.py:87-95 | the loop only appends to the commands issued before it |
| Properties.MergeCommandDecodes | SVNMerge.py:58-61 | `MergeCommand`, the vector `svn_merge(str(revision), source_branch, working_dir)` builds at SVNMerge.py:89, is `svn merge -c <str(revision)> <source> --accept theirs-full` run in the working copy, and reads back as exactly that merge |
| Properties.MergeCommandInjective | SVMMergeWithTortoise.py:78-80 | two revisions with the same merge command have the same `str()`, and two integer revisions with the same merge command are equal |
| Scenarios.RevisionTexts | SVNMerge.py:89 | revisions 42 and 43 are put on the merge command line as "42" and "43" |
| Scenarios.ToolCommand | SVMMergeWithTortoise.py:65 | the tool's vector for `/wc` is `TortoiseProc.exe /command:resolve /path:/wc` |
| Scenarios.FeatureAllSucceed | SVNMerge.py:82-97 | the example plan, everything succeeding: switch, update, merge 42, merge 43, exit 0, under either script |
| Scenarios.FeatureStrictConflict | SVNMerge.py:87-95 | the example plan, strict, merge of 43 fails: switch, update, merge 42, merge 43, one revert, exit 1 |
| Scenarios.FeatureInteractiveResolved | SVMMergeWithTortoise.py:110-113 | the example plan, interactive, merge of 42 fails and the tool exits 0: the run goes on to merge 43 and exits 0 |
| Scenarios.FeatureInteractiveResolvedLast | SVMMergeWithTortoise.py:110-119 | the example plan, interactive, merge of 43 fails and the tool exits 0: the run ends normally after the tool |
| Scenarios.FeatureInteractiveUnresolved | SVMMergeWithTortoise.py:67-72 | the example plan, interactive, merge of 43 and the tool fail: the tool, one revert, exit 1 |
| Scenarios.FeatureResolvedThenUnresolved | SVMMergeWithTortoise.py:110-124 | the example plan, interactive: the tool settles the conflict of 42, then merge 43 and its tool fail and the first revert fails: switch, update, merge 42, tool, merge 43, tool, revert, revert, exit 1 |
| Scenarios.NoRevisionsNoCommand | SVNMerge.py:75-79 | a configuration with the revision list absent or empty issues no command and exits 1 |

## Left out

- `load_config`: the file lookup, the JSON parsing and their messages are not modelled. The configuration is a parameter, `None` when the file is missing or is not valid JSON; that case exits 1 with no command issued.
- A JSON document that is not an object (where `config.get` would raise `AttributeError` and the script would end with a traceback, status 1) is folded into the `None` configuration. The status is the same.
- A `revisions` value that is not a list is not modelled. A JSON string is truthy and is iterated character by character, so `"4243"` merges 4, 2, 4 and 3. A non-zero number raises `TypeError` after switch and update, and the outer handler reverts.
- Configuration values other than strings, and revisions other than JSON integers and strings (floats, booleans, nested values), are not modelled. Python truthiness is modelled only for strings and lists.
- The path of the configuration file next to the script (`__file__`) is not modelled.
- Console output and the text of error messages are not modelled, including the message `run_command` builds from the captured streams.
- `subprocess.run` is replaced by the `world` oracle: the outcome of each command, indexed by its position in the run.
- What svn and TortoiseSVN do to the working copy (conflict handling, whether `theirs-full` resolves a conflict, whether revert is idempotent) is outside the scripts and not modelled.
- A missing `svn` executable raises `FileNotFoundError` instead of `RuntimeError`. In the interactive script, `svn_merge` would then not launch the tool, and `main`'s handler would revert directly. The model folds this into an ordinary failed command, so the tool is launched.
- A `PermissionError` or other `OSError` when launching the tool is not modelled. It escapes `svn_resolve_with_tortoise` and reaches `main`'s handler. The trace is the same as for a failing tool, except that only `main`'s two handlers revert. The first revert is then retried once instead of twice, so there are at most two reverts instead of three.
- Hung commands, interruption of the process and concurrent use of the working copy are not modelled.
