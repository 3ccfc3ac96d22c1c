/** What every step of the authority protocol keeps, and what follows for whole runs. */
module AuthoritySafety {
  import opened Basics
  import opened AuthorityProtocol

  /******* The invariant *******/

  ghost predicate Increasing(s: seq<nat>) {
    forall i, j | 0 <= i < j < |s| :: s[i] < s[j]
  }

  /** The attestation does not describe the current generation, so every check against it fails. */
  ghost predicate Stale(f: Files) {
    f.attestation.Some? ==> f.attestation.value.generation != f.generation
  }

  /** The generation moved ahead of the attestation, the commit and every staged bundle. */
  ghost predicate Ahead(f: Files) {
    && (f.attestation.Some? ==> f.attestation.value.generation < f.generation)
    && Published(f) < f.generation
    && f.generation !in f.staged
  }

  /** A visible commit has its complete bundle, and the bundle is what the manifest says. */
  ghost predicate CommitComplete(f: Files) {
    f.commit.Some? ==>
      var record := f.commit.value;
      && record.bundleDir == record.generation
      && record.bundleDir in f.staged
      && f.staged[record.bundleDir].Keys == BUNDLE_MEMBERS
      && record.manifest == Manifest(f.staged[record.bundleDir])
  }

  ghost predicate FilesOk(f: Files) {
    && f.generation <= MAX_GENERATION
    && (f.attestation.Some? ==> f.attestation.value.generation <= f.generation)
    && (forall g | g in f.staged :: 0 < g <= f.generation)
    && f.consumed <= Published(f) <= f.generation
    && CommitComplete(f)
  }

  /** The published record carries the snapshot its validator was handed, at its own generation. */
  ghost predicate CommitBound(c: Config, w: World) {
    w.files.commit.Some? ==>
      var record := w.files.commit.value;
      && record.generation in w.prepared
      && record.snapshotDigest == Sha256OfSnapshot(Snapshot(record.generation, c.issuer,
           w.prepared[record.generation].approvals, w.prepared[record.generation].receipts))
  }

  ghost predicate HistoryOk(c: Config, w: World) {
    && Increasing(w.committed)
    && (forall i | 0 <= i < |w.committed| :: 0 < w.committed[i] <= Published(w.files))
    && (forall g :: g in w.prepared <==> g in w.committed)
    && CommitBound(c, w)
    && (w.files.commit.Some? ==> |w.committed| > 0 && w.committed[|w.committed| - 1] == Published(w.files))
    && (w.files.consumed == 0 || w.files.consumed in w.committed)
  }

  /** An effect acts on exactly the approvals and receipts its admission was prepared with. */
  ghost predicate EffectBound(w: World, e: Effect) {
    && e.generation in w.prepared
    && e.snapshot.approvals == w.prepared[e.generation].approvals
    && e.snapshot.receipts == w.prepared[e.generation].receipts
  }

  ghost predicate EffectsOk(w: World) {
    && (forall i | 0 <= i < |w.applied| :: w.applied[i].generation <= w.files.consumed && EffectBound(w, w.applied[i]))
    && (forall i, j | 0 <= i < j < |w.applied| :: w.applied[i].generation < w.applied[j].generation)
  }

  ghost predicate TaskOk(c: Config, f: Files, task: Task) {
    match task
    case Survey(payloads) => payloads.Keys <= c.gates
    case Attest(author, generation) => generation == f.generation && (author.ByEnrolment? || Stale(f))
    case Recheck(_, _, proposal, now, _, generation) =>
      generation == f.generation && Ahead(f) && proposal.bundle.Keys == BUNDLE_MEMBERS
    case CheckConsume(record) => f.commit == Some(record)
    case Verify(record, _) => f.commit == Some(record) && f.consumed < record.generation
    case _ => true
  }

  ghost predicate PhaseOk(c: Config, w: World, ph: Phase) {
    var f := w.files;
    match ph
    case Reading(task, seen) => seen.Keys <= ToRead(c, task) && TaskOk(c, f, task)
    case Installing(payloads, generation, pending) =>
      generation == f.generation && Ahead(f) && pending <= payloads.Keys <= c.gates
    case Prepared(_, _, proposal, _, _) => proposal.bundle.Keys == BUNDLE_MEMBERS
    case Staging(_, validated, snapshot, proposal, generation, _, unstaged) =>
      && generation == f.generation && Published(f) < generation && Stale(f)
      && proposal.bundle.Keys == BUNDLE_MEMBERS && unstaged <= BUNDLE_MEMBERS
      && generation in f.staged
      && f.staged[generation].Keys == BUNDLE_MEMBERS - unstaged
      && (forall m | m in f.staged[generation] :: f.staged[generation][m] == proposal.bundle[m])
      && snapshot == Snapshot(generation, c.issuer, validated.approvals, validated.receipts)
    case Loading(_) => true
    case Verified(record, snapshot) =>
      && f.commit == Some(record) && f.consumed < record.generation == f.generation
      && record.snapshotDigest == Sha256OfSnapshot(snapshot)
    case Spent(record, snapshot) =>
      && f.commit == Some(record) && f.consumed == record.generation == f.generation
      && record.snapshotDigest == Sha256OfSnapshot(snapshot)
      && (forall i | 0 <= i < |w.applied| :: w.applied[i].generation < record.generation)
  }

  /** Everything but the section's own phase. */
  ghost predicate Core(c: Config, w: World) {
    FilesOk(w.files) && HistoryOk(c, w) && EffectsOk(w)
  }

  ghost predicate Inv(c: Config, w: World) {
    Core(c, w) && (w.section.Some? ==> PhaseOk(c, w, w.section.value.phase))
  }

  /******* What a change to the files leaves alone *******/

  /** Approvals, the section and the boot do not enter the core. */
  lemma FrameKeeps(c: Config, w: World, w': World)
    requires Core(c, w) && w'.files == w.files.(approvals := w'.files.approvals)
    requires w'.committed == w.committed && w'.prepared == w.prepared && w'.applied == w.applied
    ensures Core(c, w')
  {
  }

  /** Moving the generation file forward keeps everything that does not name the current generation. */
  lemma AdvanceKeeps(c: Config, w: World, w': World)
    requires Core(c, w) && w.files.generation < MAX_GENERATION
    requires w' == w.(files := w.files.(generation := w.files.generation + 1))
    ensures Core(c, w') && Ahead(w'.files)
  {
    assert CommitComplete(w'.files);
    assert CommitBound(c, w');
    hide CommitComplete, CommitBound, EffectBound;
    assert HistoryOk(c, w');
  }

  lemma AttestationCore(c: Config, w: World, w': World, a: Attestation)
    requires Core(c, w) && a.generation <= w.files.generation
    requires w' == w.(files := w.files.(attestation := Some(a)))
    ensures Core(c, w')
  {
    assert CommitComplete(w'.files);
    hide CommitComplete, EffectBound;
  }

  /** Filling a staging directory above the commit. */
  lemma StagedCore(c: Config, w: World, w': World, g: nat, dir: map<Member, Bytes>)
    requires Core(c, w) && Published(w.files) < g <= w.files.generation
    requires w' == w.(files := w.files.(staged := w.files.staged[g := dir]))
    ensures Core(c, w')
  {
    assert CommitComplete(w'.files);
    assert HistoryOk(c, w') && EffectsOk(w');
    hide CommitComplete, HistoryOk, EffectsOk;
  }

  lemma SpendCore(c: Config, w: World, w': World)
    requires Core(c, w) && w.files.commit.Some?
    requires w' == w.(files := w.files.(consumed := Published(w.files)))
    ensures Core(c, w')
  {
    assert CommitComplete(w'.files);
    hide CommitComplete, EffectBound;
  }

  lemma EffectCore(c: Config, w: World, w': World, e: Effect)
    requires Core(c, w) && EffectBound(w, e) && e.generation <= w.files.consumed
    requires forall i | 0 <= i < |w.applied| :: w.applied[i].generation < e.generation
    requires w' == w.(applied := w.applied + [e])
    ensures Core(c, w')
  {
    assert HistoryOk(c, w') && FilesOk(w'.files);
    hide HistoryOk, FilesOk;
    assert forall x :: EffectBound(w, x) ==> EffectBound(w', x);
    hide EffectBound;
  }

  lemma CommitCore(c: Config, w: World, ph: Phase, w': World)
    requires Core(c, w) && PhaseOk(c, w, ph) && ph.Staging? && ph.unstaged == {}
    requires w' == w.(files := w.files.(commit := Some(RecordOf(w, ph))),
                      committed := w.committed + [ph.generation],
                      prepared := w.prepared[ph.generation := ph.validated])
    ensures Core(c, w')
  {
    assert ph.generation !in w.committed && ph.generation !in w.prepared;
    CommitFiles(c, w, ph, w');
    CommitHistory(c, w, ph, w');
    hide FilesOk, HistoryOk, PhaseOk;
    assert forall e :: EffectBound(w, e) ==> EffectBound(w', e);
  }

  lemma CommitFiles(c: Config, w: World, ph: Phase, w': World)
    requires FilesOk(w.files) && PhaseOk(c, w, ph) && ph.Staging? && ph.unstaged == {}
    requires w'.files == w.files.(commit := Some(RecordOf(w, ph)))
    ensures FilesOk(w'.files)
  {
    hide CommitComplete;
    BundleComplete(c, w, ph, w'.files);
  }

  lemma BundleComplete(c: Config, w: World, ph: Phase, f: Files)
    requires PhaseOk(c, w, ph) && ph.Staging? && ph.unstaged == {}
    requires f == w.files.(commit := Some(RecordOf(w, ph)))
    ensures CommitComplete(f)
  {
  }

  lemma CommitHistory(c: Config, w: World, ph: Phase, w': World)
    requires HistoryOk(c, w) && PhaseOk(c, w, ph) && ph.Staging? && w.files.consumed <= Published(w.files)
    requires w'.files == w.files.(commit := Some(RecordOf(w, ph)))
    requires w'.committed == w.committed + [ph.generation] && w'.prepared == w.prepared[ph.generation := ph.validated]
    ensures HistoryOk(c, w')
  {
    IncreasingSnoc(w.committed, ph.generation);
    RecordBound(c, w, ph, w');
    hide Increasing, CommitBound, PhaseOk, RecordOf;
    assert forall g :: g in w'.committed <==> g in w.committed || g == ph.generation;
  }

  lemma IncreasingSnoc(s: seq<nat>, g: nat)
    requires Increasing(s) && forall i | 0 <= i < |s| :: s[i] < g
    ensures Increasing(s + [g])
  {
  }

  lemma RecordBound(c: Config, w: World, ph: Phase, w': World)
    requires PhaseOk(c, w, ph) && ph.Staging?
    requires w'.files == w.files.(commit := Some(RecordOf(w, ph)))
    requires w'.prepared == w.prepared[ph.generation := ph.validated]
    ensures CommitBound(c, w') && Published(w.files) < ph.generation == Published(w'.files)
  {
    hide Manifest;
  }

  /******* Every step keeps it *******/

  lemma LeaveKeeps(c: Config, w: World)
    requires Core(c, w)
    ensures Inv(c, Leave(w))
  {
    FrameKeeps(c, w, Leave(w));
    hide Core;
  }

  lemma GoKeeps(c: Config, w: World, p: Pid, ph: Phase)
    requires Core(c, w) && PhaseOk(c, w, ph)
    ensures Inv(c, Go(w, p, ph))
  {
    FrameKeeps(c, w, Go(w, p, ph));
    hide Core;
  }

  lemma InstallKeeps(c: Config, w: World, p: Pid, g: Gate)
    requires Inv(c, w) && Enabled(c, w, Install(p, g))
    ensures Inv(c, Do(c, w, Install(p, g)))
  {
    hide Core;
    var ph := w.section.value.phase;
    var w1 := w.(files := w.files.(approvals := w.files.approvals[g := ph.payloads[g]]));
    FrameKeeps(c, w, w1);
    var pending := ph.pending - {g};
    if pending == {} {
      GoKeeps(c, w1, p, Reading(Attest(ByWriter, ph.generation), map[]));
    } else {
      GoKeeps(c, w1, p, ph.(pending := pending));
    }
  }

  lemma StageKeeps(c: Config, w: World, p: Pid)
    requires Inv(c, w) && Enabled(c, w, Stage(p))
    ensures Inv(c, Do(c, w, Stage(p)))
    ensures w.section.value.phase.task.generation !in w.files.staged
  {
    hide Core;
    var ph := w.section.value.phase;
    var Recheck(req, validated, proposal, now, elapsed, generation) := ph.task;
    var snapshot := TakeSnapshot(c, w.files.generation, ph.seen);
    if snapshot.approvals == validated.approvals && snapshot.receipts == validated.receipts {
      var w1 := w.(files := w.files.(staged := w.files.staged[generation := map[]]));
      StagedCore(c, w, w1, generation, map[]);
      GoKeeps(c, w1, p, Staging(req, validated, snapshot, proposal, generation,
                                elapsed + (proposal.deadline - now), BUNDLE_MEMBERS));
    } else {
      LeaveKeeps(c, w);
    }
  }

  lemma StageMemberKeeps(c: Config, w: World, p: Pid, m: Member)
    requires Inv(c, w) && Enabled(c, w, StageMember(p, m))
    ensures Inv(c, Do(c, w, StageMember(p, m)))
  {
    hide Core;
    var ph := w.section.value.phase;
    if |ph.proposal.bundle[m]| > MAX_BUNDLE_BYTES {
      LeaveKeeps(c, w);
    } else {
      var dir := w.files.staged[ph.generation][m := ph.proposal.bundle[m]];
      var w1 := w.(files := w.files.(staged := w.files.staged[ph.generation := dir]));
      StagedCore(c, w, w1, ph.generation, dir);
      assert dir.Keys == BUNDLE_MEMBERS - (ph.unstaged - {m});
      GoKeeps(c, w1, p, ph.(unstaged := ph.unstaged - {m}));
    }
  }

  lemma PublishCommitKeeps(c: Config, w: World, p: Pid, now: int)
    requires Inv(c, w) && Enabled(c, w, PublishCommit(p, now))
    ensures Inv(c, Do(c, w, PublishCommit(p, now)))
  {
    hide Core;
    var ph := w.section.value.phase;
    if ph.proposal.deadline <= now {
      LeaveKeeps(c, w);
    } else {
      var w1 := w.(files := w.files.(commit := Some(RecordOf(w, ph))),
                   committed := w.committed + [ph.generation],
                   prepared := w.prepared[ph.generation := ph.validated]);
      CommitCore(c, w, ph, w1);
      GoKeeps(c, w1, p, Reading(Attest(ByAdmission, ph.generation), map[]));
    }
  }

  lemma SpendKeeps(c: Config, w: World, p: Pid)
    requires Inv(c, w) && Enabled(c, w, Spend(p))
    ensures Inv(c, Do(c, w, Spend(p)))
  {
    var Verified(record, snapshot) := w.section.value.phase;
    assert forall i | 0 <= i < |w.applied| :: w.applied[i].generation < record.generation;
    hide Core;
    var w1 := w.(files := w.files.(consumed := record.generation));
    SpendCore(c, w, w1);
    GoKeeps(c, w1, p, Spent(record, snapshot));
  }

  lemma ApplyEffectKeeps(c: Config, w: World, p: Pid)
    requires Inv(c, w) && Enabled(c, w, ApplyEffect(p))
    ensures Inv(c, Do(c, w, ApplyEffect(p)))
  {
    var Spent(record, snapshot) := w.section.value.phase;
    var e := Effect(record.generation, snapshot);
    assert EffectBound(w, e);
    hide Core, EffectBound;
    var w1 := w.(applied := w.applied + [e]);
    EffectCore(c, w, w1, e);
    LeaveKeeps(c, w1);
  }

  lemma AttestationKeeps(c: Config, w: World, p: Pid)
    requires Inv(c, w) && Enabled(c, w, PublishAttestation(p))
    ensures Inv(c, Do(c, w, PublishAttestation(p)))
  {
    hide Core;
    var ph := w.section.value.phase;
    var a := Attestation(ph.task.generation, StoreDigest(c, ph.seen));
    var w1 := w.(files := w.files.(attestation := Some(a)));
    AttestationCore(c, w, w1, a);
    LeaveKeeps(c, w1);
  }

  lemma AdvanceForWriteKeeps(c: Config, w: World, p: Pid)
    requires Inv(c, w) && Enabled(c, w, AdvanceForWrite(p))
    ensures Inv(c, Do(c, w, AdvanceForWrite(p)))
  {
    hide Core;
    if w.files.generation < MAX_GENERATION {
      var w1 := w.(files := w.files.(generation := w.files.generation + 1));
      AdvanceKeeps(c, w, w1);
      var payloads := w.section.value.phase.task.payloads;
      GoKeeps(c, w1, p, Installing(payloads, w1.files.generation, payloads.Keys));
    } else {
      LeaveKeeps(c, w);
    }
  }

  lemma AdvanceForAdmissionKeeps(c: Config, w: World, p: Pid)
    requires Inv(c, w) && Enabled(c, w, AdvanceForAdmission(p))
    ensures Inv(c, Do(c, w, AdvanceForAdmission(p)))
  {
    hide Core;
    if w.files.generation < MAX_GENERATION {
      var w1 := w.(files := w.files.(generation := w.files.generation + 1));
      AdvanceKeeps(c, w, w1);
      var Prepared(req, validated, proposal, now, elapsed) := w.section.value.phase;
      GoKeeps(c, w1, p, Reading(Recheck(req, validated, proposal, now, elapsed, w1.files.generation), map[]));
    } else {
      LeaveKeeps(c, w);
    }
  }

  /** A step that moves the section from `w` to phase `ph`, or leaves it, writing nothing. */
  ghost predicate MovesTo(c: Config, w: World, w': World) {
    w' == Leave(w) || (w'.section.Some?
      && w' == Go(w, w'.section.value.p, w'.section.value.phase) && PhaseOk(c, w, w'.section.value.phase))
  }

  lemma MoveKeeps(c: Config, w: World, w': World)
    requires Core(c, w) && MovesTo(c, w, w')
    ensures Inv(c, w')
  {
    hide Core, PhaseOk;
    LeaveKeeps(c, w);
    if w' != Leave(w) {
      GoKeeps(c, w, w'.section.value.p, w'.section.value.phase);
    }
  }

  lemma ReadMoves(c: Config, w: World, p: Pid, g: Gate)
    requires Inv(c, w) && Enabled(c, w, Read(p, g))
    ensures MovesTo(c, w, Do(c, w, Read(p, g)))
  {
    hide Core;
  }

  lemma CheckMoves(c: Config, w: World, p: Pid, now: int)
    requires Inv(c, w) && Enabled(c, w, CheckBypass(p, now))
    ensures MovesTo(c, w, Do(c, w, CheckBypass(p, now)))
  {
    hide Core;
  }

  lemma LoadMoves(c: Config, w: World, p: Pid)
    requires Inv(c, w) && Enabled(c, w, Load(p))
    ensures MovesTo(c, w, Do(c, w, Load(p)))
  {
    hide Core;
  }

  lemma PrepareMoves(c: Config, w: World, p: Pid, proposal: Proposal, now: int, elapsed: int)
    requires Inv(c, w) && Enabled(c, w, Prepare(p, proposal, now, elapsed))
    ensures MovesTo(c, w, Do(c, w, Prepare(p, proposal, now, elapsed)))
  {
    hide Core;
  }

  lemma ConfirmMoves(c: Config, w: World, p: Pid, elapsed: int)
    requires Inv(c, w) && Enabled(c, w, Confirm(p, elapsed))
    ensures MovesTo(c, w, Do(c, w, Confirm(p, elapsed)))
  {
    assert w.files.consumed <= Published(w.files) <= w.files.generation;
    hide Core;
  }

  lemma AcquireMoves(c: Config, w: World, p: Pid, op: Operation)
    requires Enabled(c, w, Acquire(p, op))
    ensures MovesTo(c, w, Do(c, w, Acquire(p, op)))
  {
  }

  /** Steps that write no file: they open the section, move it on, or refuse. */
  lemma QuietKeeps(c: Config, w: World, e: Event)
    requires Inv(c, w) && Enabled(c, w, e) && (Quiet(e) || e.Acquire?)
    ensures Inv(c, Do(c, w, e))
  {
    match e {
      case Acquire(p, op) => AcquireMoves(c, w, p, op);
      case Read(p, g) => ReadMoves(c, w, p, g);
      case CheckBypass(p, now) => CheckMoves(c, w, p, now);
      case Prepare(p, proposal, now, elapsed) => PrepareMoves(c, w, p, proposal, now, elapsed);
      case Load(p) => LoadMoves(c, w, p);
      case Confirm(p, elapsed) => ConfirmMoves(c, w, p, elapsed);
      case _ =>
    }
    hide Core, PhaseOk, Enabled;
    MoveKeeps(c, w, Do(c, w, e));
  }

  lemma RogueKeeps(c: Config, w: World, g: Gate, content: Option<ApprovalFile>)
    requires Inv(c, w)
    ensures Inv(c, DoRogue(w, g, content))
  {
    hide Core;
    FrameKeeps(c, w, DoRogue(w, g, content));
  }

  lemma RebootKeeps(c: Config, w: World, boot: string)
    requires Inv(c, w)
    ensures Inv(c, w.(section := None, boot := boot))
  {
    hide Core, PhaseOk;
    FrameKeeps(c, w, w.(section := None, boot := boot));
  }

  ghost predicate Quiet(e: Event) {
    e.Read? || e.CheckBypass? || e.Prepare? || e.Load? || e.Confirm? || e.Crash?
  }

  /** Every step, of every process, with every outcome, keeps the invariant. */
  lemma InvStep(c: Config, w: World, e: Event)
    requires Inv(c, w) && Enabled(c, w, e)
    ensures Inv(c, Do(c, w, e))
  {
    hide Inv;
    match e {
      case AdvanceForWrite(p) => AdvanceForWriteKeeps(c, w, p);
      case AdvanceForAdmission(p) => AdvanceForAdmissionKeeps(c, w, p);
      case Install(p, g) => InstallKeeps(c, w, p, g);
      case PublishAttestation(p) => AttestationKeeps(c, w, p);
      case Stage(p) => StageKeeps(c, w, p);
      case StageMember(p, m) => StageMemberKeeps(c, w, p, m);
      case PublishCommit(p, now) => PublishCommitKeeps(c, w, p, now);
      case Spend(p) => SpendKeeps(c, w, p);
      case ApplyEffect(p) => ApplyEffectKeeps(c, w, p);
      case Rogue(g, content) => RogueKeeps(c, w, g, content);
      case Reboot(boot) => RebootKeeps(c, w, boot);
      case _ => QuietKeeps(c, w, e);
    }
  }
}
