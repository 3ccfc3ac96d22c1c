/**
 The two build commands as they run against the candidate root's directories. Each call takes the
 protocol's own steps; `life` is how many of them the process survives.
 */
module CandidateRoots {
  import opened Basics
  import opened TwoBuild

  datatype Outcome = Done | Refused | Killed

  /** What the sandboxed build left behind; None when it failed. */
  type Output = Option<(Bytes, Core, SourceIdentity)>

  predicate Usable(output: Output) {
    output.Some? && output.value.1.wheel == Sha256(output.value.0) && output.value.1.size == |output.value.0|
  }

  function BuildFrom(job: Job, output: Output): Build
    requires output.Some?
  {
    Build(output.value.0, output.value.1, Receipt(job.kind, job.process, output.value.2, job.x4))
  }

  lemma {:induction false} RunsOneMore(w: World, es: seq<Event>, e: Event)
    requires Runs(w, es) && Enabled(After(w, es), e)
    ensures Runs(w, es + [e]) && After(w, es + [e]) == Step(After(w, es), e)
    decreases |es|
  {
    if es == [] {
      assert es + [e] == [e] && [e][1..] == [];
    } else {
      assert (es + [e])[0] == es[0] && (es + [e])[1..] == es[1..] + [e];
      RunsOneMore(Step(w, es[0]), es[1..], e);
    }
  }

  class CandidateRoot {
    var buildA: Option<Build>
    var buildB: Option<Build>
    var artifacts: Option<Artifacts>
    var forensic: Option<Pair>
    var stages: set<Token>
    ghost var world: World
    ghost var events: seq<Event>

    ghost predicate Traced() reads this {
      Runs(INITIAL, events) && world == After(INITIAL, events)
    }

    /** The directories are those of a run of the protocol. */
    ghost predicate Valid() reads this {
      && Traced() && buildA == world.buildA && buildB == world.buildB && artifacts == world.artifacts
      && forensic == world.forensic && stages == world.stages
    }

    ghost predicate Idle() reads this {
      Valid() && world.running == map[]
    }

    constructor ()
      ensures Idle() && buildA == None && buildB == None && artifacts == None && forensic == None && stages == {}
    {
      buildA, buildB, artifacts, forensic, stages := None, None, None, None, {};
      world, events := INITIAL, [];
    }

    ghost method Log(e: Event)
      requires Traced() && Enabled(world, e)
      modifies this`world, this`events
      ensures Traced() && world == Step(old(world), e)
    {
      RunsOneMore(INITIAL, events, e);
      world, events := Step(world, e), events + [e];
    }

    predicate Holds(a: bool, b: bool) reads this {
      buildA.Some? == a && buildB.Some? == b && artifacts.None? && stages == {} && forensic.None?
    }

    ghost predicate SameRoot(a: Option<Build>, b: Option<Build>, r: Option<Artifacts>, f: Option<Pair>) reads this {
      buildA == a && buildB == b && artifacts == r && forensic == f
    }

    /** One process is at work, at this point of the protocol. */
    ghost predicate On(pid: Pid, phase: Phase) reads this {
      Valid() && world.running == map[pid := phase]
    }

    /** A process that stops; its staging directory stays. */
    ghost method Die(pid: Pid, phase: Phase)
      requires On(pid, phase)
      modifies this`world, this`events
      ensures Idle()
    {
      Log(Stop(pid, false));
    }

    ghost method Compiles(pid: Pid, job: Job, output: Output)
      requires On(pid, Compiling(job)) && Usable(output)
      modifies this`world, this`events
      ensures On(pid, Compiled(job, BuildFrom(job, output)))
    {
      Log(Compile(pid, output.value.0, output.value.1, output.value.2));
    }

    ghost method Reconfirms(pid: Pid, job: Job, build: Build)
      requires On(pid, Compiled(job, build)) && Holds(job.kind == B, false)
      modifies this`world, this`events
      ensures On(pid, Confirmed(job, build))
    {
      Log(Reconfirm(pid));
    }

    method MakeStage(pid: Pid, job: Job, build: Build, token: Token)
      requires On(pid, Confirmed(job, build)) && token !in stages
      modifies this`stages, this`world, this`events
      ensures On(pid, Staged(job, build, token)) && stages == old(stages) + {token}
    {
      stages := stages + {token};
      Log(Stage(pid, token));
    }

    method RenameA(pid: Pid, job: Job, build: Build, token: Token)
      requires On(pid, Staged(job, build, token)) && job.kind == A && buildA.None?
      modifies this`buildA, this`stages, this`world, this`events
      ensures Idle() && buildA == Some(build) && stages == old(stages) - {token}
    {
      buildA, stages := Some(build), stages - {token};
      Log(PublishBuild(pid));
    }

    method RenameB(pid: Pid, job: Job, build: Build, token: Token)
      requires On(pid, Staged(job, build, token)) && job.kind == B && buildB.None? && job.first.Some?
      modifies this`buildB, this`stages, this`world, this`events
      ensures On(pid, Comparing(job, job.first.value, build)) && buildB == Some(build) && stages == old(stages) - {token}
    {
      buildB, stages := Some(build), stages - {token};
      Log(PublishBuild(pid));
    }

    /** From the sandboxed build to the staged directory, the part both commands share. */
    method MakeAndStage(pid: Pid, job: Job, output: Output, token: Token, life: nat) returns (outcome: Outcome)
      requires On(pid, Compiling(job)) && Holds(job.kind == B, false)
      modifies this`stages, this`world, this`events
      ensures outcome == Refused <==> life > 1 && !Usable(output)
      ensures outcome == Done <==> life > 4 && Usable(output)
      ensures outcome != Done ==> Idle()
      ensures outcome == Refused ==> stages == {}
      ensures outcome == Done ==> On(pid, Staged(job, BuildFrom(job, output), token)) && stages == {token}
    {
      hide Traced;
      if life <= 1 {
        Die(pid, Compiling(job));
        return Killed;
      }
      if !Usable(output) {
        Die(pid, Compiling(job));
        return Refused;
      }
      ghost var build := BuildFrom(job, output);
      Compiles(pid, job, output);
      if life <= 2 {
        Die(pid, Compiled(job, build));
        return Killed;
      }
      Reconfirms(pid, job, build);
      if life <= 3 {
        Die(pid, Confirmed(job, build));
        return Killed;
      }
      MakeStage(pid, job, BuildFrom(job, output), token);
      if life <= 4 {
        Die(pid, Staged(job, build, token));
        return Killed;
      }
      return Done;
    }

    method BuildCandidateA(
      pid: Pid, x4: X4, process: ProcessIdentity, output: Output, token: Token, life: nat)
      returns (outcome: Outcome)
      requires Idle()
      modifies this
      ensures Idle() && SameRoot(buildA, old(buildB), old(artifacts), old(forensic))
      ensures outcome == Done <==> old(Holds(false, false)) && life > 4 && Usable(output)
      ensures outcome == Done ==>
        buildA == Some(Build(output.value.0, output.value.1, Receipt(A, process, output.value.2, x4)))
      ensures outcome != Done ==> buildA == old(buildA)
      ensures outcome != Killed ==> stages == old(stages)
    {
      hide Traced;
      if !Holds(false, false) {
        return Refused;
      }
      Log(Begin(pid, A, x4, process, false));
      var job := Job(A, x4, process, false, None);
      assert On(pid, Compiling(job));
      outcome := MakeAndStage(pid, job, output, token, life);
      if outcome == Done {
        RenameA(pid, job, BuildFrom(job, output), token);
      }
    }

    ghost method Compares(pid: Pid, job: Job, a: Build, b: Build)
      requires On(pid, Comparing(job, a, b)) && Comparable(job, a, b) && buildA == Some(a) && buildB == Some(b)
      modifies this`world, this`events
      ensures On(pid, if job.retain then Retaining(a, b) else Matched(a, b))
    {
      Log(Compare(pid));
    }

    ghost method ChecksFinal(pid: Pid, a: Build, b: Build)
      requires On(pid, Matched(a, b)) && Holds(true, true) && buildA == Some(a) && buildB == Some(b)
      modifies this`world, this`events
      ensures On(pid, Final(a, b))
    {
      Log(CheckFinal(pid));
    }

    method RetainPair(pid: Pid, a: Build, b: Build)
      requires On(pid, Retaining(a, b)) && forensic.None?
      modifies this`forensic, this`world, this`events
      ensures Idle() && forensic == Some(PairOf(a, b))
    {
      forensic := Some(PairOf(a, b));
      Log(Retain(pid));
    }

    method MakeArtifactStage(pid: Pid, a: Build, b: Build, token: Token)
      requires On(pid, Final(a, b)) && token !in stages
      modifies this`stages, this`world, this`events
      ensures On(pid, Moving(a, b, token)) && stages == old(stages) + {token}
    {
      stages := stages + {token};
      Log(StageArtifacts(pid, token));
    }

    method RenameArtifacts(pid: Pid, a: Build, b: Build, token: Token)
      requires On(pid, Moving(a, b, token)) && artifacts.None?
      modifies this`artifacts, this`stages, this`world, this`events
      ensures Idle() && artifacts == Some(ArtifactsOf(a, b)) && stages == old(stages) - {token}
    {
      artifacts, stages := Some(ArtifactsOf(a, b)), stages - {token};
      Log(PublishArtifacts(pid));
    }

    /** The rest of a Build B call, once its build is published. */
    method ConcludeB(pid: Pid, job: Job, a: Build, b: Build, token: Token, life: nat) returns (outcome: Outcome)
      requires On(pid, Comparing(job, a, b)) && Holds(true, true) && buildA == Some(a) && buildB == Some(b)
      requires Sealed(a, A) && Sealed(b, B)
      modifies this`artifacts, this`forensic, this`stages, this`world, this`events
      ensures Idle()
      ensures outcome == Done <==> life > 8 && !job.retain && Comparable(job, a, b)
      ensures artifacts == if outcome == Done then Some(ArtifactsOf(a, b)) else None
      ensures forensic ==
        if life > 6 && job.retain && a.receipt.source != b.receipt.source then Some(PairOf(a, b)) else None
      ensures outcome != Killed ==> stages == {}
    {
      hide Traced;
      if life <= 5 {
        Die(pid, Comparing(job, a, b));
        return Killed;
      }
      if !Comparable(job, a, b) {
        Die(pid, Comparing(job, a, b));
        return Refused;
      }
      Compares(pid, job, a, b);
      if life <= 6 {
        Die(pid, if job.retain then Retaining(a, b) else Matched(a, b));
        return Killed;
      }
      if job.retain {
        RetainPair(pid, a, b);
        return Refused;
      }
      outcome := PublishFinal(pid, a, b, token, life);
    }

    method PublishFinal(pid: Pid, a: Build, b: Build, token: Token, life: nat) returns (outcome: Outcome)
      requires On(pid, Matched(a, b)) && Holds(true, true) && buildA == Some(a) && buildB == Some(b)
      modifies this`artifacts, this`stages, this`world, this`events
      ensures Idle()
      ensures outcome == Done <==> life > 8
      ensures artifacts == if outcome == Done then Some(ArtifactsOf(a, b)) else None
      ensures outcome != Killed ==> stages == {} && outcome == Done
    {
      hide Traced;
      ChecksFinal(pid, a, b);
      if life <= 7 {
        Die(pid, Final(a, b));
        return Killed;
      }
      MakeArtifactStage(pid, a, b, token);
      if life <= 8 {
        Die(pid, Moving(a, b, token));
        return Killed;
      }
      RenameArtifacts(pid, a, b, token);
      return Done;
    }

    /** Build A as a Build B call with these arguments may load it. */
    predicate Loadable(x4: X4, process: ProcessIdentity) reads this {
      Holds(true, false) && buildA.value.receipt.x4 == x4 && buildA.value.receipt.process != process
    }

    method BuildCandidateB(
      pid: Pid, x4: X4, process: ProcessIdentity, retain: bool, output: Output, token: Token, next: Token, life: nat)
      returns (outcome: Outcome)
      requires Idle()
      modifies this
      ensures Idle() && buildA == old(buildA)
      // success: Build A is there under this receipt, from another process and source, byte for byte the same
      ensures outcome == Done <==>
        && old(Loadable(x4, process)) && Usable(output) && life > 8 && !retain
        && output.value.2 != buildA.value.receipt.source
        && output.value.0 == buildA.value.wheel && output.value.1 == buildA.value.core
      ensures buildB == if old(Loadable(x4, process)) && Usable(output) && life > 4
        then Some(BuildFrom(Job(B, x4, process, retain, buildA), output)) else old(buildB)
      ensures artifacts == if outcome == Done then Some(ArtifactsOf(buildA.value, buildB.value)) else old(artifacts)
      ensures retain ==> artifacts == old(artifacts)
      ensures forensic ==
        if retain && old(Loadable(x4, process)) && Usable(output) && life > 6
          && output.value.2 != buildA.value.receipt.source
        then Some(PairOf(buildA.value, buildB.value)) else old(forensic)
      ensures outcome != Killed ==> stages == old(stages)
    {
      SealedA();
      hide Traced;
      if !Loadable(x4, process) || !Sealed(buildA.value, A) {
        return Refused;
      }
      var job := Job(B, x4, process, retain, buildA);
      Log(Begin(pid, B, x4, process, retain));
      assert On(pid, Compiling(job));
      outcome := MakeAndStage(pid, job, output, token, life);
      if outcome == Done {
        var build := BuildFrom(job, output);
        RenameB(pid, job, build, token);
        outcome := ConcludeB(pid, job, buildA.value, build, next, life);
      }
    }

    lemma SealedA()
      requires Valid()
      ensures buildA.Some? ==> Sealed(buildA.value, A)
    {
      RunKeeps(INITIAL, events);
    }
  }

  function PairOf(a: Build, b: Build): Pair {
    Pair(a.wheel, b.wheel, (a.receipt.source, b.receipt.source))
  }

  /** The comparison lets the call go on: to retention whatever the bytes, otherwise only if they agree. */
  predicate Comparable(job: Job, a: Build, b: Build) {
    && Sealed(a, A) && Sealed(b, B) && a.receipt.source != b.receipt.source
    && (!job.retain ==> a.wheel == b.wheel && a.core == b.core)
  }
}
