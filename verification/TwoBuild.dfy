/**
 The two-build protocol: Build A, Build B and the final artifacts, published by concurrent processes
 into one candidate root. There is no lock; every publication is one rename that never replaces.
 Each process may stop between any two steps, leaving its staging directory behind.
 */
module TwoBuild {
  import opened Basics

  datatype Kind = A | B

  datatype WheelDigest = Sha256(raw: Bytes)

  datatype Core = Core(wheel: WheelDigest, size: nat, inventory: string)

  /** An authority receipt document stands for its digest and for the fields copied out of it. */
  type X4 = string

  type ProcessIdentity = string

  type SourceIdentity = string

  datatype Receipt = Receipt(kind: Kind, process: ProcessIdentity, source: SourceIdentity, x4: X4)

  datatype Build = Build(wheel: Bytes, core: Core, receipt: Receipt)

  datatype Artifacts = Artifacts(wheel: Bytes, core: Core, receiptA: Receipt, receiptB: Receipt)

  datatype Pair = Pair(first: Bytes, second: Bytes, sources: (SourceIdentity, SourceIdentity))

  type Pid = nat

  type Token = string

  /** What a call has established so far. `first` is the loaded Build A, for a Build B call. */
  datatype Job = Job(kind: Kind, x4: X4, process: ProcessIdentity, retain: bool, first: Option<Build>)

  datatype Phase =
    | Compiling(job: Job)
    | Compiled(job: Job, build: Build)
    | Confirmed(job: Job, build: Build)
    | Staged(job: Job, build: Build, stage: Token)
    | Comparing(job: Job, a: Build, b: Build)
    | Retaining(a: Build, b: Build)
    | Matched(a: Build, b: Build)
    | Final(a: Build, b: Build)
    | Moving(a: Build, b: Build, stage: Token)

  /** The candidate root, the forensic root, and the processes at work. `owner` published Build B. */
  datatype World = World(
    buildA: Option<Build>, buildB: Option<Build>, artifacts: Option<Artifacts>, forensic: Option<Pair>,
    stages: set<Token>, running: map<Pid, Phase>, owner: Option<(Pid, bool)>)

  datatype Event =
    | Begin(pid: Pid, kind: Kind, x4: X4, process: ProcessIdentity, retain: bool)
    | Compile(pid: Pid, wheel: Bytes, core: Core, source: SourceIdentity)
    | Reconfirm(pid: Pid)
    | Stage(pid: Pid, token: Token)
    | PublishBuild(pid: Pid)
    | Compare(pid: Pid)
    | Retain(pid: Pid)
    | CheckFinal(pid: Pid)
    | StageArtifacts(pid: Pid, token: Token)
    | PublishArtifacts(pid: Pid)
    | Stop(pid: Pid, discarded: bool)

  const INITIAL: World := World(None, None, None, None, {}, map[], None)

  /** The candidate root holds exactly these builds and nothing else; the forensic root is absent. */
  predicate RootHolds(w: World, a: bool, b: bool) {
    w.buildA.Some? == a && w.buildB.Some? == b && w.artifacts.None? && w.stages == {} && w.forensic.None?
  }

  predicate PhaseRoot(w: World, kind: Kind) {
    RootHolds(w, kind == B, false)
  }

  /** A loaded build's files agree with each other. */
  predicate Sealed(b: Build, kind: Kind) {
    b.core.wheel == Sha256(b.wheel) && b.core.size == |b.wheel| && b.receipt.kind == kind
  }

  function ArtifactsOf(a: Build, b: Build): Artifacts {
    Artifacts(a.wheel, a.core, a.receipt, b.receipt)
  }

  predicate Running(w: World, pid: Pid) { pid in w.running }

  predicate Enabled(w: World, e: Event) {
    match e
    case Begin(pid, kind, x4, process, retain) =>
      && !Running(w, pid) && PhaseRoot(w, kind)
      && (kind == B ==>
        var first := w.buildA.value;
        Sealed(first, A) && first.receipt.x4 == x4 && first.receipt.process != process)
    case Compile(pid, wheel, core, source) =>
      Running(w, pid) && w.running[pid].Compiling? && core.wheel == Sha256(wheel) && core.size == |wheel|
    case Reconfirm(pid) =>
      Running(w, pid) && w.running[pid].Compiled? && PhaseRoot(w, w.running[pid].job.kind)
    case Stage(pid, token) =>
      Running(w, pid) && w.running[pid].Confirmed? && token !in w.stages
    case PublishBuild(pid) =>
      Running(w, pid) && w.running[pid].Staged? && Slot(w, w.running[pid].job.kind).None?
    case Compare(pid) =>
      && Running(w, pid) && w.running[pid].Comparing?
      && var p := w.running[pid];
      && w.buildA == Some(p.a) && w.buildB == Some(p.b) && Sealed(p.a, A) && Sealed(p.b, B)
      && p.a.receipt.source != p.b.receipt.source
      && (!p.job.retain ==> p.a.wheel == p.b.wheel && p.a.core == p.b.core)
    case Retain(pid) =>
      Running(w, pid) && w.running[pid].Retaining? && w.forensic.None?
    case CheckFinal(pid) =>
      && Running(w, pid) && w.running[pid].Matched? && RootHolds(w, true, true)
      && w.buildA == Some(w.running[pid].a) && w.buildB == Some(w.running[pid].b)
    case StageArtifacts(pid, token) =>
      Running(w, pid) && w.running[pid].Final? && token !in w.stages
    case PublishArtifacts(pid) =>
      Running(w, pid) && w.running[pid].Moving? && w.artifacts.None?
    case Stop(pid, _) =>
      Running(w, pid)
  }

  function Slot(w: World, kind: Kind): Option<Build> {
    if kind == A then w.buildA else w.buildB
  }

  function Go(w: World, pid: Pid, phase: Phase): World {
    w.(running := w.running[pid := phase])
  }

  function End(w: World, pid: Pid): World {
    w.(running := w.running - {pid})
  }

  /** The staging directory a stopping process may remove. */
  function OwnStage(phase: Phase): set<Token> {
    match phase case Staged(_, _, s) => {s} case Moving(_, _, s) => {s} case _ => {}
  }

  function Step(w: World, e: Event): World
    requires Enabled(w, e)
  {
    match e
    case Begin(pid, kind, x4, process, retain) =>
      Go(w, pid, Compiling(Job(kind, x4, process, retain, if kind == B then w.buildA else None)))
    case Compile(pid, wheel, core, source) =>
      var job := w.running[pid].job;
      Go(w, pid, Compiled(job, Build(wheel, core, Receipt(job.kind, job.process, source, job.x4))))
    case Reconfirm(pid) =>
      Go(w, pid, Confirmed(w.running[pid].job, w.running[pid].build))
    case Stage(pid, token) =>
      Go(w, pid, Staged(w.running[pid].job, w.running[pid].build, token)).(stages := w.stages + {token})
    case PublishBuild(pid) =>
      var p := w.running[pid];
      var u := w.(stages := w.stages - {p.stage});
      if p.job.kind == A then End(u, pid).(buildA := Some(p.build))
      else
        var v := u.(buildB := Some(p.build), owner := Some((pid, p.job.retain)));
        if p.job.first.Some? then Go(v, pid, Comparing(p.job, p.job.first.value, p.build)) else End(v, pid)
    case Compare(pid) =>
      var p := w.running[pid];
      Go(w, pid, if p.job.retain then Retaining(p.a, p.b) else Matched(p.a, p.b))
    case Retain(pid) =>
      var p := w.running[pid];
      End(w, pid).(forensic := Some(Pair(p.a.wheel, p.b.wheel, (p.a.receipt.source, p.b.receipt.source))))
    case CheckFinal(pid) =>
      Go(w, pid, Final(w.running[pid].a, w.running[pid].b))
    case StageArtifacts(pid, token) =>
      Go(w, pid, Moving(w.running[pid].a, w.running[pid].b, token)).(stages := w.stages + {token})
    case PublishArtifacts(pid) =>
      var p := w.running[pid];
      End(w, pid).(stages := w.stages - {p.stage},
        artifacts := Some(ArtifactsOf(p.a, p.b)))
    case Stop(pid, discarded) =>
      End(w, pid).(stages := if discarded then w.stages - OwnStage(w.running[pid]) else w.stages)
  }

  /******* The invariant *******/

  /** Build B was made by another process under the same authority receipt. */
  predicate Paired(a: Build, b: Build) {
    a.receipt.x4 == b.receipt.x4 && a.receipt.process != b.receipt.process
  }

  /** The two builds reproduce each other. */
  predicate Reproduced(a: Build, b: Build) {
    Paired(a, b) && a.wheel == b.wheel && a.core == b.core && a.receipt.source != b.receipt.source
  }

  /** A Build B job loaded the published Build A, which shares its receipt but not its process. */
  predicate JobOk(w: World, j: Job) {
    j.kind == B ==>
      j.first.Some? && w.buildA == j.first && j.first.value.receipt.x4 == j.x4
      && j.first.value.receipt.process != j.process
  }

  predicate BuildOf(j: Job, b: Build) {
    Sealed(b, j.kind) && b.receipt.x4 == j.x4 && b.receipt.process == j.process
  }

  /** The process published Build B itself, with this choice of retention. */
  predicate Owns(w: World, pid: Pid, a: Build, b: Build, retain: bool) {
    w.buildA == Some(a) && w.buildB == Some(b) && w.owner == Some((pid, retain))
  }

  predicate PhaseOk(w: World, pid: Pid, p: Phase) {
    match p
    case Compiling(j) => JobOk(w, j)
    case Compiled(j, b) => JobOk(w, j) && BuildOf(j, b)
    case Confirmed(j, b) => JobOk(w, j) && BuildOf(j, b)
    case Staged(j, b, _) => JobOk(w, j) && BuildOf(j, b)
    case Comparing(j, a, b) => Owns(w, pid, a, b, j.retain)
    case Retaining(a, b) => Owns(w, pid, a, b, true)
    case Matched(a, b) => Owns(w, pid, a, b, false) && Reproduced(a, b)
    case Final(a, b) => Owns(w, pid, a, b, false) && Reproduced(a, b)
    case Moving(a, b, _) => Owns(w, pid, a, b, false) && Reproduced(a, b)
  }

  ghost predicate PhasesOk(w: World) {
    forall pid | pid in w.running :: PhaseOk(w, pid, w.running[pid])
  }

  predicate RootOk(w: World) {
    && (w.buildA.Some? ==> Sealed(w.buildA.value, A))
    && (w.buildB.Some? ==> w.buildA.Some? && w.owner.Some? && Sealed(w.buildB.value, B))
    && (w.buildB.Some? ==> Paired(w.buildA.value, w.buildB.value))
    && (w.artifacts.Some? ==> w.buildB.Some? && !w.owner.value.1 && Reproduced(w.buildA.value, w.buildB.value))
    && (w.artifacts.Some? ==> w.artifacts.value == ArtifactsOf(w.buildA.value, w.buildB.value))
    && (w.forensic.Some? ==> w.owner.Some? && w.owner.value.1)
    && (w.owner.Some? ==> w.buildB.Some?)
  }

  ghost predicate Inv(w: World) {
    RootOk(w) && PhasesOk(w)
  }

  /** What no step ever takes back or replaces. */
  predicate Grows(w: World, v: World) {
    && (w.buildA.Some? ==> v.buildA == w.buildA) && (w.buildB.Some? ==> v.buildB == w.buildB)
    && (w.artifacts.Some? ==> v.artifacts == w.artifacts) && (w.forensic.Some? ==> v.forensic == w.forensic)
    && (w.owner.Some? ==> v.owner == w.owner)
  }

  /** Every step leaves what is published in place. */
  lemma StepGrows(w: World, e: Event)
    requires RootOk(w) && Enabled(w, e)
    ensures Grows(w, Step(w, e))
  {
  }

  lemma PhaseStays(w: World, v: World, pid: Pid, p: Phase)
    requires Grows(w, v) && PhaseOk(w, pid, p) && RootOk(w)
    ensures PhaseOk(v, pid, p)
  {
  }

  /** Only the acting process moves. */
  lemma OthersStay(w: World, e: Event)
    requires Enabled(w, e)
    ensures forall q | q in Step(w, e).running && q != e.pid :: q in w.running && Step(w, e).running[q] == w.running[q]
  {
  }

  lemma ActorOk(w: World, e: Event)
    requires Inv(w) && Enabled(w, e)
    ensures e.pid in Step(w, e).running ==> PhaseOk(Step(w, e), e.pid, Step(w, e).running[e.pid])
  {
    if e.pid in w.running { assert PhaseOk(w, e.pid, w.running[e.pid]); }
  }

  lemma RootStays(w: World, e: Event)
    requires Inv(w) && Enabled(w, e)
    ensures RootOk(Step(w, e))
  {
    if e.pid in w.running { assert PhaseOk(w, e.pid, w.running[e.pid]); }
  }

  lemma InvStep(w: World, e: Event)
    requires Inv(w) && Enabled(w, e)
    ensures Inv(Step(w, e))
  {
    var v := Step(w, e);
    RootStays(w, e);
    ActorOk(w, e);
    OthersStay(w, e);
    StepGrows(w, e);
    hide Step, Enabled, PhaseOk, RootOk, Grows;
    forall q | q in v.running
      ensures PhaseOk(v, q, v.running[q])
    {
      if q != e.pid { PhaseStays(w, v, q, w.running[q]); }
    }
  }

  /******* Whole runs *******/

  predicate Runs(w: World, es: seq<Event>)
    decreases |es|
  {
    es == [] || (Enabled(w, es[0]) && Runs(Step(w, es[0]), es[1..]))
  }

  function After(w: World, es: seq<Event>): World
    requires Runs(w, es)
    decreases |es|
  {
    if es == [] then w else After(Step(w, es[0]), es[1..])
  }

  /**
   Along every interleaving of Build A and Build B processes, with stops anywhere, the invariant
   holds and nothing published is ever replaced or removed.
   */
  lemma {:induction false} RunKeeps(w: World, es: seq<Event>)
    requires Inv(w) && Runs(w, es)
    ensures Inv(After(w, es)) && Grows(w, After(w, es))
    decreases |es|
  {
    if es != [] {
      InvStep(w, es[0]);
      StepGrows(w, es[0]);
      RunKeeps(Step(w, es[0]), es[1..]);
    }
  }

  /**
   Artifacts exist only when both builds are published with equal wheels and cores, distinct process
   and source identities and the same authority receipt; and never beside a forensic pair.
   */
  lemma ArtifactsAreReproduced(es: seq<Event>)
    requires Runs(INITIAL, es)
    ensures var w := After(INITIAL, es);
      w.artifacts.Some? ==>
        && w.buildA.Some? && w.buildB.Some? && w.forensic.None?
        && var a, b, r := w.buildA.value, w.buildB.value, w.artifacts.value;
        && r.wheel == a.wheel == b.wheel && r.core == a.core == b.core && r.core.wheel == Sha256(r.wheel)
        && r.receiptA == a.receipt && r.receiptB == b.receipt
        && a.receipt.process != b.receipt.process && a.receipt.source != b.receipt.source
        && a.receipt.x4 == b.receipt.x4
  {
    RunKeeps(INITIAL, es);
  }

  lemma {:induction false} RunsSplit(w: World, es: seq<Event>, fs: seq<Event>)
    requires Runs(w, es + fs)
    ensures Runs(w, es) && Runs(After(w, es), fs) && After(w, es + fs) == After(After(w, es), fs)
    decreases |es|
  {
    if es == [] {
      assert es + fs == fs;
    } else {
      assert (es + fs)[0] == es[0] && (es + fs)[1..] == es[1..] + fs;
      RunsSplit(Step(w, es[0]), es[1..], fs);
    }
  }

  /** The state after the first `i` events of a run. */
  ghost function At(es: seq<Event>, i: nat): World
    requires Runs(INITIAL, es) && i <= |es|
  {
    assert es == es[..i] + es[i..];
    RunsSplit(INITIAL, es[..i], es[i..]);
    After(INITIAL, es[..i])
  }

  /** Event `i` of a run is enabled, and what it published is there at every later point. */
  lemma LaterGrows(es: seq<Event>, i: nat, j: nat)
    requires Runs(INITIAL, es) && i < j <= |es|
    ensures Inv(At(es, i)) && Enabled(At(es, i), es[i])
    ensures Grows(Step(At(es, i), es[i]), At(es, j))
  {
    assert es == es[..i] + es[i..] == es[..j] + es[j..];
    RunsSplit(INITIAL, es[..i], es[i..]);
    RunsSplit(INITIAL, es[..j], es[j..]);
    var rest := es[i..j];
    assert es[..j] == es[..i] + rest && rest[0] == es[i];
    RunsSplit(INITIAL, es[..i], rest);
    RunKeeps(INITIAL, es[..i]);
    InvStep(At(es, i), es[i]);
    RunKeeps(Step(At(es, i), es[i]), rest[1..]);
  }

  predicate PublishesBuild(w: World, e: Event, kind: Kind) {
    e.PublishBuild? && Enabled(w, e) && w.running[e.pid].job.kind == kind
  }

  /** Over every run, Build A and Build B are each published at most once. */
  lemma BuildPublishedOnce(es: seq<Event>, i: nat, j: nat, kind: Kind)
    requires Runs(INITIAL, es) && i < j < |es| && PublishesBuild(At(es, i), es[i], kind)
    ensures !PublishesBuild(At(es, j), es[j], kind)
  {
    LaterGrows(es, i, j);
  }

  /** Likewise the final artifacts. */
  lemma ArtifactsPublishedOnce(es: seq<Event>, i: nat, j: nat)
    requires Runs(INITIAL, es) && i < j < |es| && es[i].PublishArtifacts?
    ensures !es[j].PublishArtifacts?
  {
    LaterGrows(es, i, j);
    LaterGrows(es, j, j + 1);
  }

  /** A run that retains a raw wheel pair publishes artifacts neither before nor after. */
  lemma RetentionPublishesNothing(es: seq<Event>, i: nat, j: nat)
    requires Runs(INITIAL, es) && i < |es| && j < |es| && es[i].Retain?
    ensures !es[j].PublishArtifacts?
  {
    LaterGrows(es, i, |es|);
    LaterGrows(es, j, |es|);
    assert es[..|es|] == es;
    RunKeeps(INITIAL, es);
  }

  /** The process that published Build B is still at work on it. */
  predicate OwnerAtWork(w: World) {
    w.owner.Some? && w.owner.value.0 in w.running
    && var p := w.running[w.owner.value.0];
    p.Comparing? || p.Retaining? || p.Matched? || p.Final? || p.Moving?
  }

  /** Once Build B's publisher has stopped without artifacts, no continuation produces them. */
  lemma {:induction false} StoppedOwnerIsFinal(w: World, es: seq<Event>)
    requires Inv(w) && Runs(w, es) && w.buildB.Some? && w.artifacts.None? && !OwnerAtWork(w)
    ensures After(w, es).artifacts.None?
    decreases |es|
  {
    if es != [] {
      InvStep(w, es[0]);
      StepGrows(w, es[0]);
      OwnerStaysStopped(w, es[0]);
      StoppedOwnerIsFinal(Step(w, es[0]), es[1..]);
    }
  }

  lemma OwnerStaysStopped(w: World, e: Event)
    requires Inv(w) && Enabled(w, e) && w.buildB.Some? && w.artifacts.None? && !OwnerAtWork(w)
    ensures !OwnerAtWork(Step(w, e)) && Step(w, e).artifacts.None?
  {
    if e.pid in w.running { assert PhaseOk(w, e.pid, w.running[e.pid]); }
  }
}
