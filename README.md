# Packaging Vagrant machines by stage

This project models the `package vagrant` command of origin-ci-tool. Each
registered Vagrant machine record carries a stage, `bare`, `base` or
`install`. For each machine, in registry order, the command:

1. works out the stage to package it as. That is its own stage with
   `--update`, or the next stage in the pipeline with `--upgrade`;
2. asks the external playbook runner to run `package/vagrant` with five
   variables;
3. relabels the record to that stage and writes it back.

When upgrading, a stage other than bare, base or install ends the command at
once, and so does a runner call that raises. `install` is packaged again as
`install`, with a warning.

Files:

- `wrappers.dfy`: module `Wrappers`, the `Result` type for operations that may raise.
- `vagrant.dfy`: module `Vagrant`. It holds:
  - the stages and their transition table;
  - `NextStage` (`next_stage`) and the lemma `NextStageFollowsTable` that
    says what it returns;
  - the target-stage choice and the runner request, each with a lemma
    stating its result;
  - the run as a function, `RunUpTo`/`Run`, one loop pass (`PackageStep`)
    at a time, with `PackageStepEffect` stating what one pass does;
  - the command body `Package`: a method that updates an array of records
    in place with a `for` loop, proved equal to `Run`.
- `vagrant_properties.dfy`: module `VagrantProperties`, the lemmas about the
  model. They cover the stage order, fail-fast stopping, which records
  change and how, what is persisted, what the runner is asked, which
  warnings are echoed, and the order of all effects. `RunUpToInduction` is
  the induction principle over loop passes that the run-level lemmas use. A
  few lemmas work out single concrete runs: an empty registry, one bare
  machine, one install machine, and a first request that fails.

Modelling choices:

- `Stage` is `Bare | Base | Install | Other(name)`. `Other` stands for any
  value outside the three members that the command names, which is what
  makes the error branch of `next_stage` reachable.
- The outside world comes in as parameters:
  - the registry (`configuration.registered_vagrant_machines()`) is an
    `array<VmRecord>`;
  - the box directory (`configuration.vagrant_box_directory`) is a string;
  - the runner (`configuration.run_playbook`) is an oracle
    `Invocation -> bool`, where `false` means the call raised.
- The playbook variables are keyed by the `Variable` datatype.
  `VariableName` gives the exact name each is passed under, and
  `VariableNamesDistinct` shows the five names differ.
- `echo` output becomes `Warning` tokens in an output list. Each `vm.write()`
  appends a `Commit(index, record)` to a ghost `persisted` log.
- Every effect is also recorded, in the order it happens, in a ghost
  `events` log: `Warned`, `Requested` and `Wrote` events.
  `LogsAreProjections` shows that the warning, request and commit logs are
  that event log read kind by kind.
- `bumpVersion` is kept as the string the runner receives. Only `"none"` is
  treated specially, as in the source (line 76).
- With `--update` the code never calls `next_stage` (lines 81-82). So a
  record whose stage is none of the three is still handed to the runner
  with that stage, and no error is raised. The model follows the code
  (`TargetStage`, `UpdateKeepsStage`).

## Model

| member | source | states |
|---|---|---|
| `Vagrant.NextStageFollowsTable` | oct/cli/package/vagrant.py:104-119 | `next_stage` succeeds exactly on the three known stages. A non-terminal stage maps to its unique table successor with no warning. `install` maps to itself with exactly one "no stage past install" warning. Any other stage fails with `UnknownStage` naming that stage, with no warning. |
| `Vagrant.TargetStageChoice` | oct/cli/package/vagrant.py:80-84 | Fails only when upgrading from an unknown stage, and then with that stage's error. A successful target equals the current stage or is its table successor, and never comes earlier in the order. It equals the current stage only when updating or at `install`. Updating yields the current stage with no warning. Upgrading warns exactly when at `install`. |
| `Vagrant.PackageCallContents` | oct/cli/package/vagrant.py:86-95 | The request names playbook `package/vagrant` and has exactly the five variable keys. Target stage, hostname and box directory go in as given. The package ref is `"local"` iff serving locally and `"remote"` otherwise. The bump choice is passed through unchanged. |
| `Vagrant.EchoedWarnings` | oct/cli/package/vagrant.py:76-77 | Echoing a list of warnings produces one warning event per warning, in the same order. |
| `Vagrant.VersionWarnings` | oct/cli/package/vagrant.py:76-77 | Is either empty or exactly the version warning, and it is the version warning iff the bump choice is `"none"`. So nothing else is echoed before the loop. |
| `Vagrant.Initial` | oct/cli/package/vagrant.py:76-79 | Before the loop the registry is as given and nothing has been requested or written. The warnings are exactly `VersionWarnings`, so the version warning if the bump choice is `"none"` and nothing otherwise, and the events are those warnings echoed. |
| `Vagrant.PackageStepEffect` | oct/cli/package/vagrant.py:80-101 | One loop pass changes at most the stage of its own record and appends that machine's stage warnings. With no target it stops there, before any request. With a refused request it stops right after that request, changing no record. Otherwise it relabels the record to the target, and appends the request, then the commit of the relabelled record, in that order. |
| `Vagrant.RunUpTo` | oct/cli/package/vagrant.py:79-101 | After `n` loop passes the registry keeps its length, a stop can only have happened at a machine already looked at, and there are at most `n` requests and no more commits than requests. |
| `Vagrant.Run` | oct/cli/package/vagrant.py:79-101 | A whole run keeps the registry's length, stops if at all at a machine of the registry, and makes at most one request per machine and at most one commit per request. |
| `Vagrant.StoppedStays` | oct/cli/package/vagrant.py:84-95 | A pass after a stop leaves the run as it was. |
| `Vagrant.StopIsFinal` | oct/cli/package/vagrant.py:84-95 | Once a pass raises, no later machine changes anything: the uncaught exception ends the loop. |
| `Vagrant.PackageMachine` | oct/cli/package/vagrant.py:80-101 | The loop body on the array: its new record array, warnings, requests, commits, events and outcome are those of one `PackageStep` on the state before it. |
| `Vagrant.Package` | oct/cli/package/vagrant.py:74-101 | The loop that relabels the array in place. Its final records, warnings, runner requests, persisted log, event log and outcome are exactly those of `Run` on the registry as it was on entry. |
| `VagrantProperties.PrecedesIsStrictTotalOrder` | oct/cli/package/vagrant.py:111-117 | `bare < base < install` is irreflexive, transitive and total on the known stages. Nothing precedes past `install`. |
| `VagrantProperties.SuccessorIsNextInOrder` | oct/cli/package/vagrant.py:111-114 | A table entry is exactly a pair that the order relates with no stage in between. |
| `VagrantProperties.UpgradeAdvancesOneStep` | oct/cli/package/vagrant.py:111-117 | Upgrading a known stage succeeds. It stays at `install` and otherwise moves exactly one step later. |
| `VagrantProperties.UpdateKeepsStage` | oct/cli/package/vagrant.py:81-82 | Updating yields the current stage with no warning, whatever the serve-local and bump options are. |
| `VagrantProperties.VariableNamesDistinct` | oct/cli/package/vagrant.py:88-94 | Two variables are passed under the same name iff they are the same variable. |
| `VagrantProperties.PackageCallDeterminesInputs` | oct/cli/package/vagrant.py:88-94 | Two equal requests have equal target, hostname, box directory, serve-local flag and bump choice. Each input reaches the runner unaltered. |
| `VagrantProperties.StageWarningsStep` | oct/cli/package/vagrant.py:80-84 | The stage warnings after one more machine are those before it followed by that machine's own. |
| `VagrantProperties.PrefixKept` | oct/cli/package/vagrant.py:97-101 | A later state that leaves the records before `i` alone and only extends the request and commit logs keeps those machines packaged as they were. |
| `VagrantProperties.AcceptedStep` | oct/cli/package/vagrant.py:86-101 | A pass whose machine has a target and whose request succeeds has these effects. The machine is relabelled. Its request is appended to the runner requests and its record to the persisted log. Earlier machines are untouched. |
| `VagrantProperties.RejectedStep` | oct/cli/package/vagrant.py:83-95 | A pass whose machine has no target, or whose request fails, stops the run at that machine. The stage warnings up to that machine have been echoed. |
| `VagrantProperties.RunUpToInduction` | oct/cli/package/vagrant.py:79-101 | A property that holds before the loop and is kept by every pass holds after any number of passes. |
| `VagrantProperties.RunUpToDescribed` | oct/cli/package/vagrant.py:79-101 | After `n` passes the run is in one of two states. Either all `n` machines are packaged, with `n` requests and `n` commits. Or it stopped at some `a < n`, with exactly the machines before `a` packaged and the reason recorded. The warnings are the version warning followed by the stage warnings of every machine looked at. |
| `VagrantProperties.RunDescribed` | oct/cli/package/vagrant.py:79-101 | The same description for a whole run. |
| `VagrantProperties.FailFast` | oct/cli/package/vagrant.py:79-95 | A run completes iff every machine has a target and its request succeeds. A run that stops, stops at the first machine that does not. |
| `VagrantProperties.CompletedRunRelabelsAll` | oct/cli/package/vagrant.py:97-101 | In a completed run, every record ends with its target stage and its own hostname. Each is persisted exactly once, in registry order, and there is one request per machine. |
| `VagrantProperties.AbortedRunLeavesRestUntouched` | oct/cli/package/vagrant.py:79-101 | A run stopped at machine `a` keeps the updated stages before `a`. Machine `a` and all later records are left as registered. Exactly the records before `a` are persisted. |
| `VagrantProperties.HowARunStops` | oct/cli/package/vagrant.py:83-95 | An unknown-stage stop happens only when upgrading. It names the machine's own stage and comes before any request for that machine. A runner stop comes right after that machine's own request, which failed. |
| `VagrantProperties.OnlyStagesChange` | oct/cli/package/vagrant.py:100 | A run keeps the registry's length and every record's hostname. |
| `VagrantProperties.EachRequestIsForItsMachine` | oct/cli/package/vagrant.py:86-94 | The `j`-th runner request is machine `j`'s request for its own target stage. There are never more requests than machines. |
| `VagrantProperties.ProjectionsAppend` | oct/cli/package/vagrant.py:76-101 | Reading the warnings, requests or commits out of two event logs put together gives those of the first followed by those of the second. |
| `VagrantProperties.LogsAreProjectionsUpTo` | oct/cli/package/vagrant.py:76-101 | After any number of passes, the warning, request and commit logs are the event log read kind by kind. |
| `VagrantProperties.LogsAreProjections` | oct/cli/package/vagrant.py:76-101 | For a whole run, the warning, request and commit logs are the ordered event log read kind by kind. |
| `VagrantProperties.StageWarningsAreTerminal` | oct/cli/package/vagrant.py:115-116 | Every stage warning is the "no stage past install" warning, and updating echoes none. |
| `VagrantProperties.VersionWarningLeadsUpTo` | oct/cli/package/vagrant.py:76-79 | After any number of passes, the first event is the version warning iff the bump choice is `"none"`, and no later event is. |
| `VagrantProperties.VersionWarningFirstAndOnce` | oct/cli/package/vagrant.py:76-77 | A warning of a run is the version warning iff it is the first warning and the bump choice is `"none"`. With `"none"` there is always that first warning, even for an empty registry. In the ordered event log it is the very first event, before every runner request and every commit, and it occurs nowhere else. |
| `VagrantProperties.UpdateEchoesNoStageWarning` | oct/cli/package/vagrant.py:81-82 | When updating, the warnings of a run are just the version warning, if any. |
| `VagrantProperties.EmptyRegistry` | oct/cli/package/vagrant.py:76-79 | An empty registry gives only the version warning, no request, no commit, and completes. |
| `VagrantProperties.UpgradeBareMachine` | oct/cli/package/vagrant.py:79-101 | Upgrading one bare machine requests `base` and persists the record as `base`, after the request. |
| `VagrantProperties.UpgradeInstallMachine` | oct/cli/package/vagrant.py:115-117 | Upgrading one install machine warns once, then requests `install` and persists `install`. |
| `VagrantProperties.FirstRequestRefused` | oct/cli/package/vagrant.py:86-101 | With two machines whose first request fails, there is one request. Nothing is persisted, both records are unchanged, and the run stops at machine 0 right after that request. |

## Left out

- The Click command declaration, its options and help text, and `pass_context` (lines 1-73). This is CLI framework glue. The validation that `--bump-version` is one of `major`, `minor`, `patch` or `none` belongs to it, so the model accepts any string.
- `configuration.run_playbook`: an external Ansible run, modelled only as a pass/fail oracle on the request. As a pure function, that oracle gives the same answer to two identical requests.
- `ansible_output_options` and the provisioning `Stage` enumeration are not part of this model. The enumeration's members beyond the three named ones are `Other`.
- `vm.write()`: storage semantics, and a write that itself fails. It is modelled as an entry appended to a ghost log.
- `configuration.registered_vagrant_machines()` and `configuration.vagrant_box_directory`: taken as given inputs.
- The text that `echo` prints and the message of the unknown-stage exception. Warnings are tokens, and the error carries the offending stage.
- Aliasing between records: the registry is an array of record values, so one record object listed twice is not modelled.
