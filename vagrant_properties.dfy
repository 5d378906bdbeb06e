/**
 * What a packaging run promises: the stage order, fail-fast behaviour, which
 * records change and how, what is persisted, what the runner is asked, and
 * which warnings are echoed.
 */
module VagrantProperties {
  import opened Wrappers
  import opened Vagrant

  // ---------------------------------------------------------------------------
  // The stage order and the transition table
  // ---------------------------------------------------------------------------

  /** bare < base < install is a strict total order on the three known stages. */
  lemma PrecedesIsStrictTotalOrder(s: Stage, t: Stage, u: Stage)
    ensures !Precedes(s, s)
    ensures Precedes(s, t) && Precedes(t, u) ==> Precedes(s, u)
    ensures Known(s) && Known(t) ==> s == t || Precedes(s, t) || Precedes(t, s)
    ensures Precedes(s, t) ==> Known(s) && Known(t) && !Terminal(s)
  {
  }

  /** Each table entry moves exactly one step up the order: nothing lies in between. */
  lemma SuccessorIsNextInOrder(s: Stage, t: Stage)
    ensures Successor(s, t) <==> Precedes(s, t) && forall u :: !(Precedes(s, u) && Precedes(u, t))
  {
    if s == Bare && t == Install {
      assert Precedes(s, Base) && Precedes(Base, t);
    }
  }

  /** Upgrading never moves a machine backwards and moves every non-terminal known stage one step. */
  lemma UpgradeAdvancesOneStep(opts: Options, current: Stage)
    requires !opts.updateCurrentStage && Known(current)
    ensures TargetStage(opts, current).result.Success?
    ensures var target := TargetStage(opts, current).result.value;
            if Terminal(current) then target == current else Successor(current, target) && Precedes(current, target)
  {
  }

  /** Updating packages the machine as its own stage, whatever the other options are, without consulting the table. */
  lemma UpdateKeepsStage(opts: Options, current: Stage)
    requires opts.updateCurrentStage
    ensures TargetStage(opts, current) == Transition(Success(current), [])
    ensures TargetStage(opts.(serveLocalFile := !opts.serveLocalFile), current) == TargetStage(opts, current)
    ensures forall b :: TargetStage(opts.(bumpVersion := b), current) == TargetStage(opts, current)
  {
  }

  // ---------------------------------------------------------------------------
  // The runner request
  // ---------------------------------------------------------------------------

  /** No two variables are passed under the same name, so a map keyed by `Variable` is the playbook's variable map. */
  lemma VariableNamesDistinct(v: Variable, w: Variable)
    ensures VariableName(v) == VariableName(w) <==> v == w
  {
  }

  /** The runner can tell every input of a request from the request: no two different inputs share one. */
  lemma PackageCallDeterminesInputs(o1: Options, d1: string, h1: string, t1: Stage,
                                    o2: Options, d2: string, h2: string, t2: Stage)
    requires PackageCall(o1, d1, h1, t1) == PackageCall(o2, d2, h2, t2)
    ensures t1 == t2 && h1 == h2 && d1 == d2
    ensures o1.serveLocalFile == o2.serveLocalFile && o1.bumpVersion == o2.bumpVersion
  {
    PackageCallContents(o1, d1, h1, t1);
    PackageCallContents(o2, d2, h2, t2);
  }

  // ---------------------------------------------------------------------------
  // What a run has done after a number of machines
  // ---------------------------------------------------------------------------

  /** Machine `vm` gets through its loop pass: it has a target stage and the runner accepts its request. */
  predicate Accepted(opts: Options, boxDirectory: string, runner: Invocation -> bool, vm: VmRecord) {
    var t := TargetStage(opts, vm.stage);
    t.result.Success? && runner(PackageCall(opts, boxDirectory, vm.hostname, t.result.value))
  }

  /**
   * Machine `i` of `registry` has been packaged in `s`: its record is relabelled
   * to its target stage, the `i`-th runner request was its own and succeeded,
   * and the `i`-th commit wrote its new record.
   */
  ghost predicate Packaged(opts: Options, boxDirectory: string, runner: Invocation -> bool,
                           registry: seq<VmRecord>, s: RunState, i: nat)
  {
    && i < |registry| && i < |s.machines| && i < |s.calls| && i < |s.persisted|
    && var t := TargetStage(opts, registry[i].stage);
    && t.result.Success?
    && s.machines[i] == registry[i].(stage := t.result.value)
    && s.calls[i] == PackageCall(opts, boxDirectory, registry[i].hostname, t.result.value)
    && runner(s.calls[i])
    && s.persisted[i] == Commit(i, s.machines[i])
  }

  /** Exactly the first `k` machines have been packaged; the records after them are as registered. */
  ghost predicate PackagedFirst(opts: Options, boxDirectory: string, runner: Invocation -> bool,
                                registry: seq<VmRecord>, s: RunState, k: nat)
  {
    && k <= |registry|
    && |s.machines| == |registry|
    && |s.persisted| == k
    && k <= |s.calls|
    && (forall i :: 0 <= i < k ==> Packaged(opts, boxDirectory, runner, registry, s, i))
    && (forall i :: k <= i < |registry| ==> s.machines[i] == registry[i])
  }

  /** How machine `a` stopped the run with error `e`: either no target stage and no request, or a refused request. */
  ghost predicate StoppedBy(opts: Options, boxDirectory: string, runner: Invocation -> bool,
                            registry: seq<VmRecord>, s: RunState, a: nat, e: Error)
  {
    && a < |registry|
    && var t := TargetStage(opts, registry[a].stage);
    && match e
       case UnknownStage(_) =>
         t.result == Failure(e) && |s.calls| == a
       case RunnerFailure =>
         && t.result.Success?
         && |s.calls| == a + 1
         && s.calls[a] == PackageCall(opts, boxDirectory, registry[a].hostname, t.result.value)
         && !runner(s.calls[a])
  }

  /** The stage warnings echoed while computing the targets of `vms`, in order. */
  function StageWarnings(opts: Options, vms: seq<VmRecord>): (w: seq<Warning>)
    decreases |vms|
  {
    if vms == [] then []
    else StageWarnings(opts, vms[..|vms| - 1]) + TargetStage(opts, vms[|vms| - 1].stage).warnings
  }

  /** The number of machines whose loop pass was entered. */
  function Examined(s: RunState, n: nat): (k: nat) {
    if s.outcome.Aborted? then s.outcome.at + 1 else n
  }

  /** What the first `n` loop passes, none of them stopping, leave behind. */
  ghost predicate CompletedUpTo(opts: Options, boxDirectory: string, runner: Invocation -> bool,
                                registry: seq<VmRecord>, s: RunState, n: nat)
  {
    && n <= |registry|
    && s.outcome == Completed
    && PackagedFirst(opts, boxDirectory, runner, registry, s, n)
    && |s.calls| == n
    && s.warnings == VersionWarnings(opts) + StageWarnings(opts, registry[..n])
  }

  /** What a run stopped by machine `a` with error `e` leaves behind. */
  ghost predicate StoppedAt(opts: Options, boxDirectory: string, runner: Invocation -> bool,
                            registry: seq<VmRecord>, s: RunState, a: nat, e: Error)
  {
    && a < |registry|
    && s.outcome == Aborted(a, e)
    && PackagedFirst(opts, boxDirectory, runner, registry, s, a)
    && StoppedBy(opts, boxDirectory, runner, registry, s, a, e)
    && s.warnings == VersionWarnings(opts) + StageWarnings(opts, registry[..a + 1])
  }

  /** The warnings after machine `i` extend those before it by that machine's stage warnings. */
  lemma StageWarningsStep(opts: Options, registry: seq<VmRecord>, i: nat)
    requires i < |registry|
    ensures StageWarnings(opts, registry[..i + 1])
            == StageWarnings(opts, registry[..i]) + TargetStage(opts, registry[i].stage).warnings
  {
    assert registry[..i + 1][..i] == registry[..i];
  }

  /** Extending the logs and leaving record `j` alone keeps machine `j` packaged. */
  lemma PackagedKept(opts: Options, boxDirectory: string, runner: Invocation -> bool,
                     registry: seq<VmRecord>, prev: RunState, s: RunState, j: nat)
    requires Packaged(opts, boxDirectory, runner, registry, prev, j)
    requires j < |s.machines| && s.machines[j] == prev.machines[j]
    requires |prev.calls| <= |s.calls| && s.calls[..|prev.calls|] == prev.calls
    requires |prev.persisted| <= |s.persisted| && s.persisted[..|prev.persisted|] == prev.persisted
    ensures Packaged(opts, boxDirectory, runner, registry, s, j)
  {
    assert s.calls[j] == s.calls[..|prev.calls|][j];
    assert s.persisted[j] == s.persisted[..|prev.persisted|][j];
  }

  /** A pass over machine `i` that leaves the records before `i` alone and only extends the logs keeps them packaged. */
  lemma PrefixKept(opts: Options, boxDirectory: string, runner: Invocation -> bool,
                   registry: seq<VmRecord>, prev: RunState, s: RunState, i: nat)
    requires PackagedFirst(opts, boxDirectory, runner, registry, prev, i)
    requires |s.machines| == |prev.machines| && forall j :: 0 <= j < i ==> s.machines[j] == prev.machines[j]
    requires |prev.calls| <= |s.calls| && s.calls[..|prev.calls|] == prev.calls
    requires |prev.persisted| <= |s.persisted| && s.persisted[..|prev.persisted|] == prev.persisted
    ensures forall j :: 0 <= j < i ==> Packaged(opts, boxDirectory, runner, registry, s, j)
  {
    forall j | 0 <= j < i
      ensures Packaged(opts, boxDirectory, runner, registry, s, j)
    {
      PackagedKept(opts, boxDirectory, runner, registry, prev, s, j);
    }
  }

  /** Relabelling, requesting and committing an accepted machine `i` extends the packaged prefix by it. */
  lemma AcceptedExtends(opts: Options, boxDirectory: string, runner: Invocation -> bool,
                        registry: seq<VmRecord>, prev: RunState, s: RunState, i: nat)
    requires i < |registry|
    requires CompletedUpTo(opts, boxDirectory, runner, registry, prev, i)
    requires Accepted(opts, boxDirectory, runner, registry[i])
    requires var t := TargetStage(opts, registry[i].stage);
             var relabelled := registry[i].(stage := t.result.value);
             && s.outcome == Completed
             && s.machines == prev.machines[i := relabelled]
             && s.warnings == prev.warnings + t.warnings
             && s.calls == prev.calls + [PackageCall(opts, boxDirectory, registry[i].hostname, t.result.value)]
             && s.persisted == prev.persisted + [Commit(i, relabelled)]
    ensures CompletedUpTo(opts, boxDirectory, runner, registry, s, i + 1)
  {
    StageWarningsStep(opts, registry, i);
    PrefixKept(opts, boxDirectory, runner, registry, prev, s, i);
  }

  /** A loop pass whose machine is accepted extends the packaged prefix by that machine. */
  lemma AcceptedStep(opts: Options, boxDirectory: string, runner: Invocation -> bool,
                     registry: seq<VmRecord>, prev: RunState, i: nat)
    requires i < |registry|
    requires CompletedUpTo(opts, boxDirectory, runner, registry, prev, i)
    requires Accepted(opts, boxDirectory, runner, registry[i])
    ensures CompletedUpTo(opts, boxDirectory, runner, registry, PackageStep(opts, boxDirectory, runner, prev, i), i + 1)
  {
    var s := PackageStep(opts, boxDirectory, runner, prev, i);
    assert prev.machines[i] == registry[i];
    var t := TargetStage(opts, registry[i].stage);
    var relabelled := registry[i].(stage := t.result.value);
    assert s.machines == prev.machines[i := relabelled];
    assert s.calls == prev.calls + [PackageCall(opts, boxDirectory, registry[i].hostname, t.result.value)];
    assert s.persisted == prev.persisted + [Commit(i, relabelled)];
    AcceptedExtends(opts, boxDirectory, runner, registry, prev, s, i);
  }

  /** A stop at machine `i` that leaves the records and commits alone and echoes its warnings is described by `StoppedAt`. */
  lemma RejectedExtends(opts: Options, boxDirectory: string, runner: Invocation -> bool,
                        registry: seq<VmRecord>, prev: RunState, s: RunState, i: nat)
    requires i < |registry|
    requires CompletedUpTo(opts, boxDirectory, runner, registry, prev, i)
    requires s.outcome.Aborted? && s.outcome.at == i
    requires StoppedBy(opts, boxDirectory, runner, registry, s, i, s.outcome.error)
    requires s.machines == prev.machines && s.persisted == prev.persisted
    requires s.warnings == prev.warnings + TargetStage(opts, registry[i].stage).warnings
    requires |prev.calls| <= |s.calls| && s.calls[..|prev.calls|] == prev.calls
    ensures StoppedAt(opts, boxDirectory, runner, registry, s, i, s.outcome.error)
  {
    StageWarningsStep(opts, registry, i);
    PrefixKept(opts, boxDirectory, runner, registry, prev, s, i);
  }

  /** A loop pass whose machine is not accepted stops the run there. */
  lemma RejectedStep(opts: Options, boxDirectory: string, runner: Invocation -> bool,
                     registry: seq<VmRecord>, prev: RunState, i: nat)
    requires i < |registry|
    requires CompletedUpTo(opts, boxDirectory, runner, registry, prev, i)
    requires !Accepted(opts, boxDirectory, runner, registry[i])
    ensures var s := PackageStep(opts, boxDirectory, runner, prev, i);
            s.outcome.Aborted? && StoppedAt(opts, boxDirectory, runner, registry, s, i, s.outcome.error)
  {
    var s := PackageStep(opts, boxDirectory, runner, prev, i);
    assert prev.machines[i] == registry[i];
    assert s.machines == prev.machines && s.persisted == prev.persisted;
    assert s.calls[..|prev.calls|] == prev.calls;
    RejectedExtends(opts, boxDirectory, runner, registry, prev, s, i);
  }

  /**
   * Induction over loop passes: a property of the state and of the number of
   * passes that holds before the loop, and that every pass keeps, holds after
   * any number of passes.
   */
  lemma {:induction false} RunUpToInduction(opts: Options, boxDirectory: string, runner: Invocation -> bool,
                                            registry: seq<VmRecord>, P: (RunState, nat) -> bool, n: nat)
    requires n <= |registry|
    requires P(Initial(opts, registry), 0)
    requires forall s: RunState, i: nat :: i < |registry| && |s.machines| == |registry| && P(s, i) ==>
               P(if s.outcome.Aborted? then s else PackageStep(opts, boxDirectory, runner, s, i), i + 1)
    ensures P(RunUpTo(opts, boxDirectory, runner, registry, n), n)
    decreases n
  {
    if n > 0 {
      RunUpToInduction(opts, boxDirectory, runner, registry, P, n - 1);
      var prev := RunUpTo(opts, boxDirectory, runner, registry, n - 1);
      assert |prev.machines| == |registry| && P(prev, n - 1);
      assert RunUpTo(opts, boxDirectory, runner, registry, n)
             == if prev.outcome.Aborted? then prev else PackageStep(opts, boxDirectory, runner, prev, n - 1);
    }
  }

  /** What the run has done after `i` passes, depending on whether it has stopped. */
  ghost predicate Described(opts: Options, boxDirectory: string, runner: Invocation -> bool,
                            registry: seq<VmRecord>, s: RunState, i: nat)
  {
    match s.outcome
    case Completed => CompletedUpTo(opts, boxDirectory, runner, registry, s, i)
    case Aborted(a, e) => StoppedAt(opts, boxDirectory, runner, registry, s, a, e)
  }

  /** The state after `n` loop passes, described machine by machine. */
  lemma {:induction false} RunUpToDescribed(opts: Options, boxDirectory: string, runner: Invocation -> bool,
                                            registry: seq<VmRecord>, n: nat)
    requires n <= |registry|
    ensures var s := RunUpTo(opts, boxDirectory, runner, registry, n);
            match s.outcome
            case Completed => CompletedUpTo(opts, boxDirectory, runner, registry, s, n)
            case Aborted(a, e) => StoppedAt(opts, boxDirectory, runner, registry, s, a, e)
    decreases n
  {
    forall s: RunState, i: nat | i < |registry| && |s.machines| == |registry| && Described(opts, boxDirectory, runner, registry, s, i)
      ensures Described(opts, boxDirectory, runner, registry,
                        if s.outcome.Aborted? then s else PackageStep(opts, boxDirectory, runner, s, i), i + 1)
    {
      if s.outcome.Completed? {
        if Accepted(opts, boxDirectory, runner, registry[i]) {
          AcceptedStep(opts, boxDirectory, runner, registry, s, i);
        } else {
          RejectedStep(opts, boxDirectory, runner, registry, s, i);
        }
      }
    }
    RunUpToInduction(opts, boxDirectory, runner, registry,
                     (s: RunState, i: nat) => Described(opts, boxDirectory, runner, registry, s, i), n);
  }

  /** The whole run, described machine by machine. */
  lemma RunDescribed(opts: Options, boxDirectory: string, runner: Invocation -> bool, registry: seq<VmRecord>)
    ensures var s := Run(opts, boxDirectory, runner, registry);
            match s.outcome
            case Completed => CompletedUpTo(opts, boxDirectory, runner, registry, s, |registry|)
            case Aborted(a, e) => StoppedAt(opts, boxDirectory, runner, registry, s, a, e)
  {
    RunUpToDescribed(opts, boxDirectory, runner, registry, |registry|);
  }

  // ---------------------------------------------------------------------------
  // Properties of a whole run
  // ---------------------------------------------------------------------------

  /**
   * Fail-fast: a run completes exactly when every machine is accepted, and
   * a run that stops, stops at the first machine that is not.
   */
  lemma FailFast(opts: Options, boxDirectory: string, runner: Invocation -> bool, registry: seq<VmRecord>)
    ensures var s := Run(opts, boxDirectory, runner, registry);
            s.outcome == Completed <==>
              forall i :: 0 <= i < |registry| ==> Accepted(opts, boxDirectory, runner, registry[i])
    ensures var s := Run(opts, boxDirectory, runner, registry);
            s.outcome.Aborted? ==>
              && s.outcome.at < |registry|
              && !Accepted(opts, boxDirectory, runner, registry[s.outcome.at])
              && forall i :: 0 <= i < s.outcome.at ==> Accepted(opts, boxDirectory, runner, registry[i])
  {
    RunDescribed(opts, boxDirectory, runner, registry);
    var s := Run(opts, boxDirectory, runner, registry);
    var k := if s.outcome.Aborted? then s.outcome.at else |registry|;
    forall i | 0 <= i < k
      ensures Accepted(opts, boxDirectory, runner, registry[i])
    {
      assert Packaged(opts, boxDirectory, runner, registry, s, i);
    }
  }

  /**
   * A completed run relabels every record to its target stage, keeps its
   * hostname, and persists each record exactly once, in registry order.
   */
  lemma CompletedRunRelabelsAll(opts: Options, boxDirectory: string, runner: Invocation -> bool, registry: seq<VmRecord>)
    requires Run(opts, boxDirectory, runner, registry).outcome == Completed
    ensures var s := Run(opts, boxDirectory, runner, registry);
            && |s.machines| == |registry| == |s.persisted| == |s.calls|
            && forall i :: 0 <= i < |registry| ==>
                 && TargetStage(opts, registry[i].stage).result.Success?
                 && s.machines[i] == VmRecord(registry[i].hostname, TargetStage(opts, registry[i].stage).result.value)
                 && s.persisted[i] == Commit(i, s.machines[i])
  {
    RunDescribed(opts, boxDirectory, runner, registry);
    var s := Run(opts, boxDirectory, runner, registry);
    forall i | 0 <= i < |registry|
      ensures TargetStage(opts, registry[i].stage).result.Success?
      ensures s.machines[i] == VmRecord(registry[i].hostname, TargetStage(opts, registry[i].stage).result.value)
      ensures s.persisted[i] == Commit(i, s.machines[i])
    {
      assert Packaged(opts, boxDirectory, runner, registry, s, i);
    }
  }

  /**
   * A run stopped at machine `a` keeps the updated records before `a`, leaves
   * machine `a` and every later record as registered, and has persisted
   * exactly the records before `a`.
   */
  lemma AbortedRunLeavesRestUntouched(opts: Options, boxDirectory: string, runner: Invocation -> bool, registry: seq<VmRecord>)
    requires Run(opts, boxDirectory, runner, registry).outcome.Aborted?
    ensures var s := Run(opts, boxDirectory, runner, registry);
            var a := s.outcome.at;
            && a < |registry| == |s.machines|
            && |s.persisted| == a
            && (forall i :: 0 <= i < a ==>
                  && TargetStage(opts, registry[i].stage).result.Success?
                  && s.machines[i] == registry[i].(stage := TargetStage(opts, registry[i].stage).result.value)
                  && s.persisted[i] == Commit(i, s.machines[i]))
            && (forall i :: a <= i < |registry| ==> s.machines[i] == registry[i])
            && (forall c :: c in s.persisted ==> c.index < a)
  {
    RunDescribed(opts, boxDirectory, runner, registry);
    var s := Run(opts, boxDirectory, runner, registry);
    var a := s.outcome.at;
    forall i | 0 <= i < a
      ensures TargetStage(opts, registry[i].stage).result.Success?
      ensures s.machines[i] == registry[i].(stage := TargetStage(opts, registry[i].stage).result.value)
      ensures s.persisted[i] == Commit(i, s.machines[i])
    {
      assert Packaged(opts, boxDirectory, runner, registry, s, i);
    }
    forall c | c in s.persisted
      ensures c.index < a
    {
      var j :| 0 <= j < |s.persisted| && s.persisted[j] == c;
      assert Packaged(opts, boxDirectory, runner, registry, s, j);
    }
  }

  /**
   * An unknown stage stops the run before the runner is asked about that
   * machine; a refused request stops it right after that machine's request.
   */
  lemma HowARunStops(opts: Options, boxDirectory: string, runner: Invocation -> bool, registry: seq<VmRecord>)
    requires Run(opts, boxDirectory, runner, registry).outcome.Aborted?
    ensures var s := Run(opts, boxDirectory, runner, registry);
            var a := s.outcome.at;
            && a < |registry|
            && match s.outcome.error
               case UnknownStage(stage) =>
                 && stage == registry[a].stage
                 && !opts.updateCurrentStage && !Known(stage)
                 && |s.calls| == a
               case RunnerFailure =>
                 && TargetStage(opts, registry[a].stage).result.Success?
                 && |s.calls| == a + 1
                 && s.calls[a] == PackageCall(opts, boxDirectory, registry[a].hostname,
                                              TargetStage(opts, registry[a].stage).result.value)
                 && !runner(s.calls[a])
  {
    RunDescribed(opts, boxDirectory, runner, registry);
  }

  /** Only the stage of a record ever changes: the registry keeps its length and every hostname. */
  lemma OnlyStagesChange(opts: Options, boxDirectory: string, runner: Invocation -> bool, registry: seq<VmRecord>)
    ensures var s := Run(opts, boxDirectory, runner, registry);
            && |s.machines| == |registry|
            && forall i :: 0 <= i < |registry| ==> s.machines[i].hostname == registry[i].hostname
  {
    RunDescribed(opts, boxDirectory, runner, registry);
    var s := Run(opts, boxDirectory, runner, registry);
    var k := if s.outcome.Aborted? then s.outcome.at else |registry|;
    forall i | 0 <= i < |registry|
      ensures s.machines[i].hostname == registry[i].hostname
    {
      if i < k {
        assert Packaged(opts, boxDirectory, runner, registry, s, i);
      }
    }
  }

  /**
   * The `j`-th runner request packages machine `j`: its hostname, its target
   * stage, the box directory, the local/remote marker and the bump choice.
   */
  lemma EachRequestIsForItsMachine(opts: Options, boxDirectory: string, runner: Invocation -> bool, registry: seq<VmRecord>)
    ensures var s := Run(opts, boxDirectory, runner, registry);
            && |s.calls| <= |registry|
            && forall j :: 0 <= j < |s.calls| ==>
                 && TargetStage(opts, registry[j].stage).result.Success?
                 && s.calls[j] == PackageCall(opts, boxDirectory, registry[j].hostname,
                                              TargetStage(opts, registry[j].stage).result.value)
  {
    RunDescribed(opts, boxDirectory, runner, registry);
    var s := Run(opts, boxDirectory, runner, registry);
    var k := if s.outcome.Aborted? then s.outcome.at else |registry|;
    forall j | 0 <= j < |s.calls|
      ensures TargetStage(opts, registry[j].stage).result.Success?
      ensures s.calls[j] == PackageCall(opts, boxDirectory, registry[j].hostname,
                                        TargetStage(opts, registry[j].stage).result.value)
    {
      if j < k {
        assert Packaged(opts, boxDirectory, runner, registry, s, j);
      }
    }
  }

  // ---------------------------------------------------------------------------
  // The ordered event log
  // ---------------------------------------------------------------------------

  /** The warnings among `ev`, in order. */
  function WarningsIn(ev: seq<Event>): (w: seq<Warning>)
    decreases |ev|
  {
    if ev == [] then []
    else WarningsIn(ev[..|ev| - 1]) + (if ev[|ev| - 1].Warned? then [ev[|ev| - 1].warning] else [])
  }

  /** The runner requests among `ev`, in order. */
  function RequestsIn(ev: seq<Event>): (calls: seq<Invocation>)
    decreases |ev|
  {
    if ev == [] then []
    else RequestsIn(ev[..|ev| - 1]) + (if ev[|ev| - 1].Requested? then [ev[|ev| - 1].call] else [])
  }

  /** The commits among `ev`, in order. */
  function CommitsIn(ev: seq<Event>): (commits: seq<Commit>)
    decreases |ev|
  {
    if ev == [] then []
    else CommitsIn(ev[..|ev| - 1]) + (if ev[|ev| - 1].Wrote? then [ev[|ev| - 1].commit] else [])
  }

  /** Picking out one kind of event distributes over concatenation. */
  lemma {:induction false} ProjectionsAppend(a: seq<Event>, b: seq<Event>)
    ensures WarningsIn(a + b) == WarningsIn(a) + WarningsIn(b)
    ensures RequestsIn(a + b) == RequestsIn(a) + RequestsIn(b)
    ensures CommitsIn(a + b) == CommitsIn(a) + CommitsIn(b)
    decreases |b|
  {
    if b != [] {
      ProjectionsAppend(a, b[..|b| - 1]);
      assert (a + b)[..|a + b| - 1] == a + b[..|b| - 1];
    } else {
      assert a + b == a;
    }
  }

  /** Echoing warnings adds exactly those warnings, and no request or commit. */
  lemma {:induction false} ProjectionsOfEchoed(w: seq<Warning>)
    ensures WarningsIn(Echoed(w)) == w
    ensures RequestsIn(Echoed(w)) == [] && CommitsIn(Echoed(w)) == []
    decreases |w|
  {
    if w != [] {
      ProjectionsOfEchoed(w[1..]);
      ProjectionsAppend([Warned(w[0])], Echoed(w[1..]));
      assert [Warned(w[0])][..0] == [];
      assert w == [w[0]] + w[1..];
    }
  }

  /** A request, then optionally a commit, adds just that request and that commit. */
  lemma ProjectionsOfPass(ev: seq<Event>, call: Invocation, c: Commit)
    ensures WarningsIn(ev + [Requested(call)]) == WarningsIn(ev)
    ensures RequestsIn(ev + [Requested(call)]) == RequestsIn(ev) + [call]
    ensures CommitsIn(ev + [Requested(call)]) == CommitsIn(ev)
    ensures WarningsIn(ev + [Requested(call), Wrote(c)]) == WarningsIn(ev)
    ensures RequestsIn(ev + [Requested(call), Wrote(c)]) == RequestsIn(ev) + [call]
    ensures CommitsIn(ev + [Requested(call), Wrote(c)]) == CommitsIn(ev) + [c]
  {
    assert (ev + [Requested(call), Wrote(c)])[..|ev| + 1] == ev + [Requested(call)];
    assert (ev + [Requested(call)])[..|ev|] == ev;
  }

  /** The warning, request and commit logs of `s` are its event log read kind by kind. */
  ghost predicate LogsAgree(s: RunState)
  {
    WarningsIn(s.events) == s.warnings && RequestsIn(s.events) == s.calls && CommitsIn(s.events) == s.persisted
  }

  /** All three ways a loop pass can extend the logs keep them in agreement with the event log. */
  lemma ProjectionsOfStep(s: RunState, w: seq<Warning>, call: Invocation, c: Commit)
    requires LogsAgree(s)
    ensures LogsAgree(s.(warnings := s.warnings + w, events := s.events + Echoed(w)))
    ensures LogsAgree(s.(warnings := s.warnings + w, calls := s.calls + [call],
                         events := s.events + Echoed(w) + [Requested(call)]))
    ensures LogsAgree(s.(warnings := s.warnings + w, calls := s.calls + [call], persisted := s.persisted + [c],
                         events := s.events + Echoed(w) + [Requested(call), Wrote(c)]))
  {
    ProjectionsOfEchoed(w);
    ProjectionsAppend(s.events, Echoed(w));
    ProjectionsOfPass(s.events + Echoed(w), call, c);
  }

  /** One loop pass keeps the three logs in agreement with the event log. */
  lemma ProjectionsStep(opts: Options, boxDirectory: string, runner: Invocation -> bool, s: RunState, i: nat)
    requires i < |s.machines|
    requires LogsAgree(s)
    ensures LogsAgree(PackageStep(opts, boxDirectory, runner, s, i))
  {
    var vm := s.machines[i];
    var t := TargetStage(opts, vm.stage);
    if t.result.Success? {
      var call := PackageCall(opts, boxDirectory, vm.hostname, t.result.value);
      ProjectionsOfStep(s, t.warnings, call, Commit(i, vm.(stage := t.result.value)));
    } else {
      ProjectionsOfStep(s, t.warnings, PackageCall(opts, boxDirectory, vm.hostname, vm.stage), Commit(i, vm));
    }
  }

  /** After `n` loop passes the warning, request and commit logs are the event log read kind by kind. */
  lemma {:induction false} LogsAreProjectionsUpTo(opts: Options, boxDirectory: string, runner: Invocation -> bool,
                                                  registry: seq<VmRecord>, n: nat)
    requires n <= |registry|
    ensures LogsAgree(RunUpTo(opts, boxDirectory, runner, registry, n))
    decreases n
  {
    forall s: RunState, i: nat | i < |registry| && |s.machines| == |registry| && LogsAgree(s)
      ensures LogsAgree(if s.outcome.Aborted? then s else PackageStep(opts, boxDirectory, runner, s, i))
    {
      if s.outcome.Completed? {
        ProjectionsStep(opts, boxDirectory, runner, s, i);
      }
    }
    ProjectionsOfEchoed(VersionWarnings(opts));
    RunUpToInduction(opts, boxDirectory, runner, registry, (s: RunState, i: nat) => LogsAgree(s), n);
  }

  /** The warnings, requests and commits of a run are its ordered event log read kind by kind. */
  lemma LogsAreProjections(opts: Options, boxDirectory: string, runner: Invocation -> bool, registry: seq<VmRecord>)
    ensures var s := Run(opts, boxDirectory, runner, registry);
            && WarningsIn(s.events) == s.warnings
            && RequestsIn(s.events) == s.calls
            && CommitsIn(s.events) == s.persisted
  {
    LogsAreProjectionsUpTo(opts, boxDirectory, runner, registry, |registry|);
  }

  // ---------------------------------------------------------------------------
  // Warnings
  // ---------------------------------------------------------------------------

  /** Every stage warning is the terminal-stage warning, and updating echoes none. */
  lemma {:induction false} StageWarningsAreTerminal(opts: Options, vms: seq<VmRecord>)
    ensures forall j :: 0 <= j < |StageWarnings(opts, vms)| ==> StageWarnings(opts, vms)[j] == NoStagePastInstall
    ensures opts.updateCurrentStage ==> StageWarnings(opts, vms) == []
    decreases |vms|
  {
    if vms != [] {
      StageWarningsAreTerminal(opts, vms[..|vms| - 1]);
    }
  }

  /**
   * The version warning leads `ev` when the bump choice is "none" (`bumpNone`),
   * and no other event of `ev` is the version warning.
   */
  ghost predicate VersionWarningLeads(ev: seq<Event>, bumpNone: bool)
  {
    && (bumpNone ==> |ev| > 0 && ev[0] == Warned(VersionNotBumped))
    && forall j :: 0 <= j < |ev| ==> (ev[j] == Warned(VersionNotBumped) <==> j == 0 && bumpNone)
  }

  /** Extending `ev` with events that are not the version warning keeps it leading. */
  lemma VersionWarningStillLeads(ev: seq<Event>, longer: seq<Event>, bumpNone: bool)
    requires VersionWarningLeads(ev, bumpNone)
    requires |ev| <= |longer| && longer[..|ev|] == ev
    requires forall j :: |ev| <= j < |longer| ==> longer[j] != Warned(VersionNotBumped)
    ensures VersionWarningLeads(longer, bumpNone)
  {
    forall j | 0 <= j < |ev|
      ensures longer[j] == ev[j]
    {
      assert longer[j] == longer[..|ev|][j];
    }
  }

  /** One loop pass only appends events, and none of them is the version warning. */
  lemma PackageStepAppendsNoVersionWarning(opts: Options, boxDirectory: string, runner: Invocation -> bool, s: RunState, i: nat)
    requires i < |s.machines|
    ensures var r := PackageStep(opts, boxDirectory, runner, s, i);
            && |s.events| <= |r.events| && r.events[..|s.events|] == s.events
            && forall j :: |s.events| <= j < |r.events| ==> r.events[j] != Warned(VersionNotBumped)
  {
    var t := TargetStage(opts, s.machines[i].stage);
    assert forall k :: 0 <= k < |t.warnings| ==> t.warnings[k] == NoStagePastInstall;
  }

  /** After `n` loop passes the version warning is the first event if the bump choice is "none", and no other event is. */
  lemma {:induction false} VersionWarningLeadsUpTo(opts: Options, boxDirectory: string, runner: Invocation -> bool,
                                                   registry: seq<VmRecord>, n: nat)
    requires n <= |registry|
    ensures VersionWarningLeads(RunUpTo(opts, boxDirectory, runner, registry, n).events, opts.bumpVersion == "none")
    decreases n
  {
    var bumpNone := opts.bumpVersion == "none";
    forall s: RunState, i: nat | i < |registry| && |s.machines| == |registry| && VersionWarningLeads(s.events, bumpNone)
      ensures VersionWarningLeads((if s.outcome.Aborted? then s else PackageStep(opts, boxDirectory, runner, s, i)).events, bumpNone)
    {
      if s.outcome.Completed? {
        PackageStepAppendsNoVersionWarning(opts, boxDirectory, runner, s, i);
        VersionWarningStillLeads(s.events, PackageStep(opts, boxDirectory, runner, s, i).events, bumpNone);
      }
    }
    RunUpToInduction(opts, boxDirectory, runner, registry,
                     (s: RunState, i: nat) => VersionWarningLeads(s.events, bumpNone), n);
  }

  /**
   * The version warning is echoed exactly once when the bump choice is
   * "none" (even for an empty registry), before any runner request and any
   * commit, and never otherwise.
   */
  lemma VersionWarningFirstAndOnce(opts: Options, boxDirectory: string, runner: Invocation -> bool, registry: seq<VmRecord>)
    ensures var w := Run(opts, boxDirectory, runner, registry).warnings;
            && (opts.bumpVersion == "none" ==> |w| > 0)
            && forall j :: 0 <= j < |w| ==> (w[j] == VersionNotBumped <==> j == 0 && opts.bumpVersion == "none")
    ensures var ev := Run(opts, boxDirectory, runner, registry).events;
            && (opts.bumpVersion == "none" ==>
                  && |ev| > 0 && ev[0] == Warned(VersionNotBumped)
                  && forall j :: 0 <= j < |ev| && (ev[j].Requested? || ev[j].Wrote?) ==> 0 < j)
            && forall j :: 0 <= j < |ev| ==> (ev[j] == Warned(VersionNotBumped) <==> j == 0 && opts.bumpVersion == "none")
  {
    RunDescribed(opts, boxDirectory, runner, registry);
    var s := Run(opts, boxDirectory, runner, registry);
    StageWarningsAreTerminal(opts, registry[..Examined(s, |registry|)]);
    VersionWarningLeadsUpTo(opts, boxDirectory, runner, registry, |registry|);
  }

  /** When updating, the only warning a run can echo is the version warning. */
  lemma UpdateEchoesNoStageWarning(opts: Options, boxDirectory: string, runner: Invocation -> bool, registry: seq<VmRecord>)
    requires opts.updateCurrentStage
    ensures Run(opts, boxDirectory, runner, registry).warnings == VersionWarnings(opts)
  {
    RunDescribed(opts, boxDirectory, runner, registry);
    var s := Run(opts, boxDirectory, runner, registry);
    StageWarningsAreTerminal(opts, registry[..Examined(s, |registry|)]);
  }

  // ---------------------------------------------------------------------------
  // Scenarios
  // ---------------------------------------------------------------------------

  /** An empty registry: only the version warning, no request, no commit. */
  lemma EmptyRegistry(opts: Options, boxDirectory: string, runner: Invocation -> bool)
    ensures Run(opts, boxDirectory, runner, [])
            == RunState([], VersionWarnings(opts), [], [], Echoed(VersionWarnings(opts)), Completed)
  {
  }

  /** Upgrading one bare machine packages it as base and persists it as base. */
  lemma UpgradeBareMachine(opts: Options, boxDirectory: string, runner: Invocation -> bool, hostname: string)
    requires !opts.updateCurrentStage
    requires runner(PackageCall(opts, boxDirectory, hostname, Base))
    ensures Run(opts, boxDirectory, runner, [VmRecord(hostname, Bare)])
            == RunState([VmRecord(hostname, Base)], VersionWarnings(opts),
                        [PackageCall(opts, boxDirectory, hostname, Base)],
                        [Commit(0, VmRecord(hostname, Base))],
                        Echoed(VersionWarnings(opts))
                          + [Requested(PackageCall(opts, boxDirectory, hostname, Base)),
                             Wrote(Commit(0, VmRecord(hostname, Base)))],
                        Completed)
  {
  }

  /** Upgrading one install machine warns, packages it as install again and persists install. */
  lemma UpgradeInstallMachine(opts: Options, boxDirectory: string, runner: Invocation -> bool, hostname: string)
    requires !opts.updateCurrentStage
    requires runner(PackageCall(opts, boxDirectory, hostname, Install))
    ensures Run(opts, boxDirectory, runner, [VmRecord(hostname, Install)])
            == RunState([VmRecord(hostname, Install)], VersionWarnings(opts) + [NoStagePastInstall],
                        [PackageCall(opts, boxDirectory, hostname, Install)],
                        [Commit(0, VmRecord(hostname, Install))],
                        Echoed(VersionWarnings(opts))
                          + [Warned(NoStagePastInstall),
                             Requested(PackageCall(opts, boxDirectory, hostname, Install)),
                             Wrote(Commit(0, VmRecord(hostname, Install)))],
                        Completed)
  {
  }

  /** Two machines whose first request is refused: the second is never looked at and nothing is persisted. */
  lemma FirstRequestRefused(opts: Options, boxDirectory: string, runner: Invocation -> bool, first: VmRecord, second: VmRecord)
    requires TargetStage(opts, first.stage).result.Success?
    requires !runner(PackageCall(opts, boxDirectory, first.hostname, TargetStage(opts, first.stage).result.value))
    ensures var s := Run(opts, boxDirectory, runner, [first, second]);
            && s.machines == [first, second]
            && s.persisted == []
            && s.calls == [PackageCall(opts, boxDirectory, first.hostname, TargetStage(opts, first.stage).result.value)]
            && s.events == Echoed(VersionWarnings(opts)) + Echoed(TargetStage(opts, first.stage).warnings)
                           + [Requested(PackageCall(opts, boxDirectory, first.hostname, TargetStage(opts, first.stage).result.value))]
            && s.outcome == Aborted(0, RunnerFailure)
  {
    var s1 := RunUpTo(opts, boxDirectory, runner, [first, second], 1);
    assert s1 == RunUpTo(opts, boxDirectory, runner, [first, second], 2);
  }
}
