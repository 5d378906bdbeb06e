/**
 * The `package vagrant` command: the stage successor function and the loop
 * that packages every registered Vagrant machine, hands it to the external
 * playbook runner and relabels and persists its stage.
 */
module Vagrant {
  import opened Wrappers

  // ---------------------------------------------------------------------------
  // Stages
  // ---------------------------------------------------------------------------

  /**
   * The stage a VM record carries. `Bare`, `Base` and `Install` are the three
   * members of the provisioning stage enumeration that this command knows;
   * `Other` stands for any other value a record may hold.
   */
  datatype Stage = Bare | Base | Install | Other(name: string)

  /** One of the three stages the successor table covers. */
  predicate Known(s: Stage) {
    !s.Other?
  }

  /** The last stage of the pipeline: nothing follows it. */
  predicate Terminal(s: Stage) {
    s == Install
  }

  /** The transition table, one entry per non-terminal stage. */
  predicate Successor(s: Stage, t: Stage) {
    (s == Bare && t == Base) || (s == Base && t == Install)
  }

  /** The pipeline order bare < base < install, enumerated pair by pair. */
  predicate Precedes(s: Stage, t: Stage) {
    (s == Bare && t == Base) || (s == Bare && t == Install) || (s == Base && t == Install)
  }

  // ---------------------------------------------------------------------------
  // Warnings and errors
  // ---------------------------------------------------------------------------

  /** The two non-fatal warnings the command echoes. */
  datatype Warning =
    | VersionNotBumped   // `--bump-version=none`: box users get no automatic upgrade
    | NoStagePastInstall // no stage follows install; install is overwritten instead

  /** The two ways a run ends early. */
  datatype Error =
    | UnknownStage(stage: Stage) // upgrading a record whose stage is none of bare, base, install
    | RunnerFailure              // the playbook run raised

  /** What one stage computation returns, and the warnings it echoes on the way. */
  datatype Transition = Transition(result: Result<Stage, Error>, warnings: seq<Warning>)

  /** `next_stage`: the stage that follows `current`; `NextStageFollowsTable` says what it returns. */
  function NextStage(current: Stage): (t: Transition)
  {
    if current == Bare then
      Transition(Success(Base), [])
    else if current == Base then
      Transition(Success(Install), [])
    else if current == Install then
      Transition(Success(Install), [NoStagePastInstall])
    else
      Transition(Failure(UnknownStage(current)), [])
  }

  /**
   * `next_stage` succeeds exactly on the three known stages. A non-terminal
   * stage goes to its one table successor; the terminal stage maps to itself
   * with a warning; a stage outside the table is an error naming it.
   */
  lemma NextStageFollowsTable(current: Stage)
    ensures var r := NextStage(current);
            && (r.result.Success? <==> Known(current))
            && (r.result.Failure? ==> r.result.error == UnknownStage(current))
            && (r.result.Success? && !Terminal(current) ==>
                  forall t :: Successor(current, t) <==> t == r.result.value)
            && (Terminal(current) ==> r.result == Success(current))
            && r.warnings == if Terminal(current) then [NoStagePastInstall] else []
  {
  }

  // ---------------------------------------------------------------------------
  // Command options, the VM registry and the runner
  // ---------------------------------------------------------------------------

  /**
   * The command's options. `bumpVersion` is the chosen segment as the runner
   * receives it ("major", "minor", "patch" or "none").
   */
  datatype Options = Options(updateCurrentStage: bool, serveLocalFile: bool, bumpVersion: string)

  /** A registered Vagrant machine as the command sees it. */
  datatype VmRecord = VmRecord(hostname: string, stage: Stage)

  /** One call of the record's `write()`: which record, and what was written. */
  datatype Commit = Commit(index: nat, record: VmRecord)

  /** A value in the playbook's variable map. */
  datatype Value = StageValue(stage: Stage) | Text(text: string)

  /** The five variables the packaging playbook is given; `VariableName` is the name each is passed under. */
  datatype Variable = TargetStageVar | HostnameVar | PackageDirVar | PackageRefVar | BumpVersionVar

  /** One request to the external runner: a playbook and its variables. */
  datatype Invocation = Invocation(playbook: string, variables: map<Variable, Value>)

  /** One observable effect of a run, in the order the run produces them. */
  datatype Event = Warned(warning: Warning) | Requested(call: Invocation) | Wrote(commit: Commit)

  const PackagePlaybook := "package/vagrant"

  /** The name under which the runner receives variable `v`. */
  function VariableName(v: Variable): (name: string)
  {
    match v
    case TargetStageVar => "origin_ci_vagrant_target_stage"
    case HostnameVar => "origin_ci_vagrant_hostname"
    case PackageDirVar => "origin_ci_vagrant_package_dir"
    case PackageRefVar => "origin_ci_vagrant_package_ref"
    case BumpVersionVar => "origin_ci_vagrant_package_bump_version"
  }

  /** The stage a machine is packaged as: its own stage when updating, its successor when upgrading. */
  function TargetStage(opts: Options, current: Stage): (t: Transition)
  {
    if opts.updateCurrentStage then Transition(Success(current), []) else NextStage(current)
  }

  /**
   * The target stage fails only when upgrading from an unknown stage. A
   * target is the current stage or its successor and never earlier; it is
   * the current stage only when updating or at install. Updating warns about
   * nothing; upgrading warns exactly at install.
   */
  lemma TargetStageChoice(opts: Options, current: Stage)
    ensures var r := TargetStage(opts, current);
            && (r.result.Success? <==> opts.updateCurrentStage || Known(current))
            && (r.result.Failure? ==> r.result.error == UnknownStage(current))
            && (r.result.Success? ==> r.result.value == current || Successor(current, r.result.value))
            && (r.result.Success? ==> !Precedes(r.result.value, current))
            && (r.result.Success? && r.result.value == current ==> opts.updateCurrentStage || Terminal(current))
            && (opts.updateCurrentStage ==> r.result == Success(current) && r.warnings == [])
            && r.warnings == if !opts.updateCurrentStage && Terminal(current) then [NoStagePastInstall] else []
  {
  }

  /** The runner request that packages the machine `hostname` as `target`. */
  function PackageCall(opts: Options, boxDirectory: string, hostname: string, target: Stage): (call: Invocation)
  {
    Invocation(PackagePlaybook, map[
      TargetStageVar := StageValue(target),
      HostnameVar := Text(hostname),
      PackageDirVar := Text(boxDirectory),
      PackageRefVar := Text(if opts.serveLocalFile then "local" else "remote"),
      BumpVersionVar := Text(opts.bumpVersion)
    ])
  }

  /**
   * The request names the packaging playbook and exactly the five variables:
   * target stage, hostname and box directory as given, the package ref
   * `local` exactly when serving locally and `remote` otherwise, and the bump
   * choice unchanged.
   */
  lemma PackageCallContents(opts: Options, boxDirectory: string, hostname: string, target: Stage)
    ensures var c := PackageCall(opts, boxDirectory, hostname, target);
            && c.playbook == PackagePlaybook
            && c.variables.Keys == {TargetStageVar, HostnameVar, PackageDirVar, PackageRefVar, BumpVersionVar}
            && c.variables[TargetStageVar] == StageValue(target)
            && c.variables[HostnameVar] == Text(hostname)
            && c.variables[PackageDirVar] == Text(boxDirectory)
            && (c.variables[PackageRefVar] == Text("local") <==> opts.serveLocalFile)
            && (c.variables[PackageRefVar] == Text("remote") <==> !opts.serveLocalFile)
            && c.variables[BumpVersionVar] == Text(opts.bumpVersion)
  {
  }

  // ---------------------------------------------------------------------------
  // The packaging run, as a function of the registry
  // ---------------------------------------------------------------------------

  /** How a run ended: every machine done, or stopped at machine `at`. */
  datatype Outcome = Completed | Aborted(at: nat, error: Error)

  /**
   * Everything a run has produced so far: the records, the warnings echoed,
   * the runner requests made, the commits written, all of those effects in
   * the order they happened, and whether it stopped.
   */
  datatype RunState = RunState(
    machines: seq<VmRecord>,
    warnings: seq<Warning>,
    calls: seq<Invocation>,
    persisted: seq<Commit>,
    events: seq<Event>,
    outcome: Outcome)

  /** The effects of echoing `w`, one warning after another. */
  function Echoed(w: seq<Warning>): (ev: seq<Event>)
  {
    if w == [] then [] else [Warned(w[0])] + Echoed(w[1..])
  }

  /** Echoing `w` produces one event per warning, in the same order. */
  lemma {:induction false} EchoedWarnings(w: seq<Warning>)
    ensures |Echoed(w)| == |w|
    ensures forall j :: 0 <= j < |w| ==> Echoed(w)[j] == Warned(w[j])
    decreases |w|
  {
    if w != [] {
      EchoedWarnings(w[1..]);
    }
  }

  /** The warning echoed before any machine is looked at. */
  function VersionWarnings(opts: Options): (w: seq<Warning>)
    ensures VersionNotBumped in w <==> opts.bumpVersion == "none"
    ensures |w| <= 1
    ensures w == [] || w == [VersionNotBumped]
  {
    if opts.bumpVersion == "none" then [VersionNotBumped] else []
  }

  /**
   * The state before the loop: the registry as given, no request and no
   * commit yet, and only the version warning echoed.
   */
  function Initial(opts: Options, registry: seq<VmRecord>): (s: RunState)
    ensures s.machines == registry && s.calls == [] && s.persisted == [] && s.outcome == Completed
    ensures s.warnings == VersionWarnings(opts)
    ensures VersionNotBumped in s.warnings <==> opts.bumpVersion == "none"
    ensures s.events == Echoed(s.warnings) && |s.events| <= 1
  {
    RunState(registry, VersionWarnings(opts), [], [], Echoed(VersionWarnings(opts)), Completed)
  }

  /** One pass of the loop body for machine `i`; `PackageStepEffect` says what it does. */
  function PackageStep(opts: Options, boxDirectory: string, runner: Invocation -> bool, s: RunState, i: nat): (r: RunState)
    requires i < |s.machines|
    ensures |r.machines| == |s.machines|
    ensures |s.calls| <= |r.calls| <= |s.calls| + 1
    ensures |r.persisted| - |s.persisted| <= |r.calls| - |s.calls|
    ensures r.outcome.Aborted? ==> r.outcome == s.outcome || r.outcome.at == i
  {
    var vm := s.machines[i];
    var t := TargetStage(opts, vm.stage);
    var warnings := s.warnings + t.warnings;
    var echoed := s.events + Echoed(t.warnings);
    match t.result
    case Failure(e) =>
      s.(warnings := warnings, events := echoed, outcome := Aborted(i, e))
    case Success(target) =>
      var call := PackageCall(opts, boxDirectory, vm.hostname, target);
      if !runner(call) then
        s.(warnings := warnings, calls := s.calls + [call], events := echoed + [Requested(call)],
           outcome := Aborted(i, RunnerFailure))
      else
        var relabelled := vm.(stage := target);
        s.(machines := s.machines[i := relabelled], warnings := warnings,
           calls := s.calls + [call], persisted := s.persisted + [Commit(i, relabelled)],
           events := echoed + [Requested(call), Wrote(Commit(i, relabelled))])
  }

  /**
   * What one pass of the loop body does to machine `i`. Whatever happens, only
   * record `i` may change, and only in its stage; the target-stage warnings
   * come first. With no target the run stops here before any request; with a
   * refused request it stops right after it; otherwise the record is
   * relabelled and then written.
   */
  lemma PackageStepEffect(opts: Options, boxDirectory: string, runner: Invocation -> bool, s: RunState, i: nat)
    requires i < |s.machines|
    ensures var r := PackageStep(opts, boxDirectory, runner, s, i);
            var t := TargetStage(opts, s.machines[i].stage);
            && |r.machines| == |s.machines|
            && (forall j :: 0 <= j < |s.machines| && j != i ==> r.machines[j] == s.machines[j])
            && r.machines[i].hostname == s.machines[i].hostname
            && r.warnings == s.warnings + t.warnings
            && (t.result.Failure? ==>
                  && r.outcome == Aborted(i, t.result.error)
                  && r.machines == s.machines && r.calls == s.calls && r.persisted == s.persisted
                  && r.events == s.events + Echoed(t.warnings))
            && (t.result.Success? ==>
                  var call := PackageCall(opts, boxDirectory, s.machines[i].hostname, t.result.value);
                  && r.calls == s.calls + [call]
                  && (!runner(call) ==>
                        && r.outcome == Aborted(i, RunnerFailure)
                        && r.machines == s.machines && r.persisted == s.persisted
                        && r.events == s.events + Echoed(t.warnings) + [Requested(call)])
                  && (runner(call) ==>
                        && r.outcome == s.outcome
                        && r.machines[i] == s.machines[i].(stage := t.result.value)
                        && r.persisted == s.persisted + [Commit(i, r.machines[i])]
                        && r.events == s.events + Echoed(t.warnings) + [Requested(call), Wrote(Commit(i, r.machines[i]))]))
  {
  }

  /** The state after the loop has been entered for the first `n` machines; nothing happens after a stop. */
  function RunUpTo(opts: Options, boxDirectory: string, runner: Invocation -> bool, registry: seq<VmRecord>, n: nat): (s: RunState)
    requires n <= |registry|
    ensures |s.machines| == |registry|
    ensures s.outcome.Aborted? ==> s.outcome.at < n
    ensures |s.persisted| <= |s.calls| <= n
    decreases n
  {
    if n == 0 then
      Initial(opts, registry)
    else
      var s := RunUpTo(opts, boxDirectory, runner, registry, n - 1);
      if s.outcome.Aborted? then s else PackageStep(opts, boxDirectory, runner, s, n - 1)
  }

  /** A whole run over the registry: one request at most and one commit at most per machine. */
  function Run(opts: Options, boxDirectory: string, runner: Invocation -> bool, registry: seq<VmRecord>): (s: RunState)
    ensures |s.machines| == |registry|
    ensures s.outcome.Aborted? ==> s.outcome.at < |registry|
    ensures |s.persisted| <= |s.calls| <= |registry|
  {
    RunUpTo(opts, boxDirectory, runner, registry, |registry|)
  }

  /** A run that has stopped is left as it is by the next pass. */
  lemma StoppedStays(opts: Options, boxDirectory: string, runner: Invocation -> bool, registry: seq<VmRecord>, n: nat)
    requires n < |registry|
    requires RunUpTo(opts, boxDirectory, runner, registry, n).outcome.Aborted?
    ensures RunUpTo(opts, boxDirectory, runner, registry, n + 1) == RunUpTo(opts, boxDirectory, runner, registry, n)
  {
  }

  /** Once a run has stopped, later machines change nothing. */
  lemma {:induction false} StopIsFinal(opts: Options, boxDirectory: string, runner: Invocation -> bool,
                                       registry: seq<VmRecord>, n: nat, m: nat)
    requires n <= m <= |registry|
    requires RunUpTo(opts, boxDirectory, runner, registry, n).outcome.Aborted?
    ensures RunUpTo(opts, boxDirectory, runner, registry, m) == RunUpTo(opts, boxDirectory, runner, registry, n)
    decreases m - n
  {
    if n < m {
      StoppedStays(opts, boxDirectory, runner, registry, n);
      StopIsFinal(opts, boxDirectory, runner, registry, n + 1, m);
    }
  }

  // ---------------------------------------------------------------------------
  // The command body
  // ---------------------------------------------------------------------------

  /**
   * One pass of the loop in `vagrant` for machine `i`: compute its target
   * stage, ask the runner, and on success relabel the record in place and
   * write it.
   */
  method PackageMachine(machines: array<VmRecord>, i: nat, opts: Options, boxDirectory: string,
                        runner: Invocation -> bool, warnings: seq<Warning>, calls: seq<Invocation>,
                        ghost persisted: seq<Commit>, ghost events: seq<Event>)
    returns (outcome': Outcome, warnings': seq<Warning>, calls': seq<Invocation>,
             ghost persisted': seq<Commit>, ghost events': seq<Event>)
    requires i < machines.Length
    modifies machines
    ensures RunState(machines[..], warnings', calls', persisted', events', outcome')
            == PackageStep(opts, boxDirectory, runner,
                           RunState(old(machines[..]), warnings, calls, persisted, events, Completed), i)
  {
    var vm := machines[i];
    outcome', warnings', calls', persisted', events' := Completed, warnings, calls, persisted, events;
    var stage: Stage;
    if opts.updateCurrentStage {
      stage := vm.stage;
    } else {
      var next := NextStage(vm.stage);
      warnings', events' := warnings' + next.warnings, events' + Echoed(next.warnings);
      if next.result.Failure? {
        outcome' := Aborted(i, next.result.error);
        return;
      }
      stage := next.result.value;
    }
    var call := PackageCall(opts, boxDirectory, vm.hostname, stage);
    var succeeded := runner(call);
    calls', events' := calls' + [call], events' + [Requested(call)];
    if !succeeded {
      outcome' := Aborted(i, RunnerFailure);
      return;
    }
    machines[i] := vm.(stage := stage);
    persisted', events' := persisted' + [Commit(i, machines[i])], events' + [Wrote(Commit(i, machines[i]))];
  }

  /**
   * `vagrant`: packages every machine of `machines` in order, relabelling each
   * record in place and persisting it once the runner has succeeded for it.
   * When upgrading, a stage other than bare, base or install stops the loop
   * at once, and so does a runner call that raises; install is packaged
   * again as install, with a warning.
   */
  method Package(machines: array<VmRecord>, opts: Options, boxDirectory: string, runner: Invocation -> bool)
    returns (outcome: Outcome, warnings: seq<Warning>, calls: seq<Invocation>,
             ghost persisted: seq<Commit>, ghost events: seq<Event>)
    modifies machines
    ensures RunState(machines[..], warnings, calls, persisted, events, outcome)
            == Run(opts, boxDirectory, runner, old(machines[..]))
  {
    ghost var registry := machines[..];
    warnings, events := [], [];
    if opts.bumpVersion == "none" {
      warnings, events := [VersionNotBumped], [Warned(VersionNotBumped)];
    }
    outcome, calls, persisted := Completed, [], [];
    assert events == Echoed(warnings);
    for i := 0 to machines.Length
      invariant RunState(machines[..], warnings, calls, persisted, events, outcome)
                == RunUpTo(opts, boxDirectory, runner, registry, i)
      invariant outcome == Completed
    {
      outcome, warnings, calls, persisted, events :=
        PackageMachine(machines, i, opts, boxDirectory, runner, warnings, calls, persisted, events);
      if outcome.Aborted? {
        StopIsFinal(opts, boxDirectory, runner, registry, i + 1, machines.Length);
        return;
      }
    }
  }
}
