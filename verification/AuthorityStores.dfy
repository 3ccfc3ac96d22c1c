/**
 The issuer store as the code runs it: one object, whose methods publish file after file while
 the lock is held. Every publish is logged as an event of the protocol, so each method is proved
 to be a run of the transition system and everything proved of runs holds of the store.
 */
module AuthorityStores {
  import opened Basics
  import opened AuthorityProtocol
  import opened AuthoritySafety
  import opened AuthorityHold
  import Ordering

  /** Every gate's approval is present, unrevoked and unexpired. */
  ghost predicate AllLive(c: Config, approvals: map<Gate, ApprovalFile>, now: int) {
    forall g | g in c.gates :: g in approvals && ApprovalLive(approvals[g], now)
  }

  /** The snapshot of the approvals as they stand. */
  function SnapshotOf(c: Config, f: Files): Snapshot {
    TakeSnapshot(c, f.generation, Restrict(f.approvals, c.gates))
  }

  /** Readings an admission takes: wall clock at the start, after `prepare`, and before the commit. */
  datatype Clock = Clock(started: int, prepared: int, elapsed: int, committing: int)

  /** What is checked before the generation advances; a refusal here leaves no trace. */
  ghost predicate ReachesAdvance(
    c: Config, w: World, req: Request, proposal: Option<Proposal>, clock: Clock)
  {
    && !req.action.OtherAction?
    && Fresh(c, w.files) && AllLive(c, w.files.approvals, clock.started)
    && proposal.Some? && ProposalAccepted(w.boot, req, proposal.value, clock.prepared)
    && w.files.generation < MAX_GENERATION
  }

  /** Exactly when an uninterrupted admission succeeds. */
  ghost predicate Admissible(
    c: Config, w: World, req: Request, proposal: Option<Proposal>, clock: Clock)
  {
    && ReachesAdvance(c, w, req, proposal, clock)
    && AllLive(c, w.files.approvals, clock.prepared)
    && (forall m | m in proposal.value.bundle :: |proposal.value.bundle[m]| <= MAX_BUNDLE_BYTES)
    && clock.committing < proposal.value.deadline
  }

  /** Exactly when an uninterrupted consumption succeeds. */
  ghost predicate Consumable(c: Config, w: World, req: Request, now: int, elapsed: int) {
    && !req.action.OtherAction?
    && w.files.commit.Some? && Loadable(w.files, w.boot, req, w.files.commit.value)
    && Fresh(c, w.files) && w.files.consumed < w.files.commit.value.generation
    && AllLive(c, w.files.approvals, now)
    && Confirmed(w.files, w.files.commit.value, SnapshotOf(c, w.files), now, elapsed)
  }

  /** What `recover` reports. */
  datatype Recovery = Recovery(
    published: nat, generation: nat, consumed: nat, orphaned: seq<nat>, consumable: bool)

  function Numeric(): (nat, nat) -> bool {
    (a, b) => a < b
  }

  class AuthorityStore {
    const c: Config
    var generation: nat
    var approvals: map<Gate, ApprovalFile>
    var attestation: Option<Attestation>
    var commit: Option<Commit>
    var staged: map<nat, map<Member, Bytes>>
    var consumed: nat
    ghost var origin: World
    ghost var trace: seq<Event>
    ghost var world: World

    function Durable(): Files
      reads this
    {
      Files(generation, approvals, attestation, commit, staged, consumed)
    }

    /** The trace is a run of the protocol that ends in `world`. */
    ghost predicate Logged()
      reads this
    {
      Init(origin) && Runs(c, origin, trace) && world == After(c, origin, trace) && Inv(c, world)
    }

    ghost predicate Valid()
      reads this
    {
      Logged() && world.files == Durable()
    }

    /** The lock is free. */
    ghost predicate Unlocked()
      reads this
    {
      world.section.None?
    }

    ghost predicate At(p: Pid, ph: Phase)
      reads this
    {
      world.section == Some(Section(p, ph))
    }

    /** A store that exists before anyone enrolled it. */
    constructor (issuer: string, gates: set<Gate>, existing: map<Gate, ApprovalFile>, ghost boot: string)
      ensures Valid() && Unlocked() && c == Config(issuer, gates)
      ensures Durable() == Files(0, existing, None, None, map[], 0) && world.boot == boot
    {
      c := Config(issuer, gates);
      generation, approvals, attestation, commit, staged, consumed := 0, existing, None, None, map[], 0;
      origin := World(Files(0, existing, None, None, map[], 0), None, boot, [], map[], []);
      world := World(Files(0, existing, None, None, map[], 0), None, boot, [], map[], []);
      trace := [];
    }

    /** Append one protocol event to the log. */
    ghost method Log(e: Event)
      requires Logged() && Enabled(c, world, e)
      modifies this`trace, this`world
      ensures Logged() && world == Do(c, old(world), e) && trace == old(trace) + [e]
    {
      InvStep(c, world, e);
      trace := trace + [e];
      assert trace[..|trace| - 1] == old(trace);
      world := Do(c, world, e);
    }

    /** Read the approvals a task needs, gate by gate; a missing or refused approval ends the section. */
    method ReadApprovals(p: Pid, task: Task) returns (seen: map<Gate, ApprovalFile>, ok: bool)
      requires Valid() && At(p, Reading(task, map[]))
      modifies this`trace, this`world
      ensures Valid()
      ensures ok ==> seen.Keys == ToRead(c, task) && Agrees(Durable(), seen)
      ensures world == old(world).(section := if ok then Some(Section(p, Reading(task, seen))) else None)
      ensures ok <==> forall g | g in ToRead(c, task) :: g in approvals && Readable(task, approvals[g])
    {
      hide Inv, Runs, After;
      seen, ok := map[], true;
      var pending := ToRead(c, task);
      while pending != {}
        invariant Valid() && At(p, Reading(task, seen))
        invariant pending <= ToRead(c, task) && seen.Keys == ToRead(c, task) - pending
        invariant Agrees(Durable(), seen)
        invariant forall g | g in seen :: Readable(task, approvals[g])
        invariant world == old(world).(section := world.section)
        decreases pending
      {
        var g :| g in pending;
        Log(Read(p, g));
        if g !in approvals || !Readable(task, approvals[g]) {
          ok := false;
          return;
        }
        seen := seen[g := approvals[g]];
        pending := pending - {g};
      }
    }

    /** `_publish(attestation)` over a completed reading; the section ends. */
    method PublishStoreAttestation(p: Pid, author: Author, seen: map<Gate, ApprovalFile>)
      requires Valid() && At(p, Reading(Attest(author, generation), seen))
      requires seen.Keys == c.gates && Agrees(Durable(), seen)
      modifies this`attestation, this`trace, this`world
      ensures Valid() && Unlocked() && Fresh(c, Durable())
      ensures world == old(world).(section := None, files := Durable())
    {
      hide Inv, Runs, After, Fresh, Agrees, StoreDigest;
      AttestationRefreshes(c, world, p);
      Log(PublishAttestation(p));
      attestation := Some(Attestation(generation, StoreDigest(c, seen)));
    }

    /** Attest the store as it stands, every gate being present. */
    method AttestStore(p: Pid, author: Author)
      requires Valid() && At(p, Reading(Attest(author, generation), map[])) && c.gates <= approvals.Keys
      modifies this`attestation, this`trace, this`world
      ensures Valid() && Unlocked() && Fresh(c, Durable())
      ensures world.boot == old(world).boot && world.applied == old(world).applied
    {
      hide Inv, Runs, After;
      var seen, read := ReadApprovals(p, Attest(author, generation));
      PublishStoreAttestation(p, author, seen);
    }

    /** Enrolment: attest the store as it is, at its current generation. */
    method EnrolStore(p: Pid) returns (ok: bool)
      requires Valid() && Unlocked()
      modifies this`attestation, this`trace, this`world
      ensures Valid() && Unlocked()
      ensures world.boot == old(world).boot && world.applied == old(world).applied
      ensures ok <==> c.gates <= approvals.Keys
      ensures if ok then Fresh(c, Durable()) else Durable() == old(Durable())
    {
      hide Inv, Runs, After;
      Log(Acquire(p, Enrol));
      var seen, read := ReadApprovals(p, Attest(ByEnrolment, generation));
      if !read {
        return false;
      }
      PublishStoreAttestation(p, ByEnrolment, seen);
      ok := true;
    }

    /**
     Install or revoke approvals in one critical section. Uninterrupted, the transaction either
     refuses and changes nothing, or leaves the store attested at the next generation.
     */
    method ReplaceApprovalSet(p: Pid, payloads: map<Gate, ApprovalFile>) returns (installed: Option<nat>)
      requires Valid() && Unlocked()
      modifies this`generation, this`approvals, this`attestation, this`trace, this`world
      ensures Valid() && Unlocked()
      ensures world.boot == old(world).boot && world.applied == old(world).applied
      ensures installed.Some? <==>
        && payloads.Keys != {} && payloads.Keys <= c.gates
        && c.gates - payloads.Keys <= old(approvals).Keys && old(generation) < MAX_GENERATION
      ensures installed.None? ==> Durable() == old(Durable())
      ensures installed.Some? ==>
        && installed.value == generation == old(generation) + 1
        && approvals == old(approvals) + payloads && Fresh(c, Durable())
    {
      hide Inv, Runs, After;
      if payloads.Keys == {} || !(payloads.Keys <= c.gates) {
        return None;
      }
      Log(Acquire(p, ReplaceApprovals(payloads)));
      var others, surveyed := ReadApprovals(p, Survey(payloads));
      if !surveyed {
        return None;
      }
      Log(AdvanceForWrite(p));
      if generation >= MAX_GENERATION {
        return None;
      }
      generation := generation + 1;
      assert c.gates - payloads.Keys <= approvals.Keys;
      InstallAll(p, payloads);
      AttestStore(p, ByWriter);
      installed := Some(generation);
    }

    /** One approval file is published. */
    method InstallOne(p: Pid, payloads: map<Gate, ApprovalFile>, pending: set<Gate>, g: Gate)
      requires Valid() && g in pending && pending <= payloads.Keys
      requires At(p, Installing(payloads, generation, pending))
      modifies this`approvals, this`trace, this`world
      ensures Valid()
      ensures world.boot == old(world).boot && world.applied == old(world).applied
      ensures At(p, if pending == {g} then Reading(Attest(ByWriter, generation), map[])
                    else Installing(payloads, generation, pending - {g}))
      ensures approvals == old(approvals)[g := payloads[g]]
    {
      hide Inv, Runs, After;
      Log(Install(p, g));
      approvals := approvals[g := payloads[g]];
    }

    method InstallAll(p: Pid, payloads: map<Gate, ApprovalFile>)
      requires Valid() && payloads.Keys != {} && At(p, Installing(payloads, generation, payloads.Keys))
      modifies this`approvals, this`trace, this`world
      ensures Valid() && At(p, Reading(Attest(ByWriter, generation), map[]))
      ensures world.boot == old(world).boot && world.applied == old(world).applied
      ensures approvals == old(approvals) + payloads
    {
      hide Inv, Runs, After;
      var pending := payloads.Keys;
      while pending != {}
        invariant Valid() && pending <= payloads.Keys
        invariant world.boot == old(world).boot && world.applied == old(world).applied
        invariant At(p, if pending == {} then Reading(Attest(ByWriter, generation), map[])
                        else Installing(payloads, generation, pending))
        invariant approvals.Keys == old(approvals).Keys + (payloads.Keys - pending)
        invariant forall g | g in approvals ::
          approvals[g] == if g in payloads && g !in pending then payloads[g] else old(approvals)[g]
        decreases pending
      {
        var g :| g in pending;
        InstallOne(p, payloads, pending, g);
        pending := pending - {g};
      }
    }

    /** `require_no_bypassing_writer`: true only for an attestation current in generation and bytes. */
    method CheckAttestation(p: Pid, task: Task, now: int) returns (ok: bool)
      requires Valid() && At(p, Reading(task, map[])) && (task.CheckAdmit? || task.CheckConsume?)
      modifies this`trace, this`world
      ensures Valid()
      ensures ok <==> Fresh(c, Durable()) && (task.CheckConsume? ==> consumed < task.record.generation)
      ensures world == old(world).(section := if !ok then None else Some(Section(p, Reading(
        if task.CheckAdmit? then Validate(task.req, now) else Verify(task.record, now), map[]))))
    {
      hide Inv, Runs, After;
      var seen, read := ReadApprovals(p, task);
      if !read {
        return false;
      }
      CompleteReading(c, Durable(), Reading(task, seen));
      Log(CheckBypass(p, now));
      ok := AttestationCurrent(c, Durable(), seen) && (task.CheckConsume? ==> consumed < task.record.generation);
    }

    /** Write the bundle member by member into the directory just created. */
    method StageBundle(p: Pid, ghost start: Phase, bundle: map<Member, Bytes>) returns (ok: bool)
      requires Valid() && start.Staging? && At(p, start) && generation in staged && staged[generation] == map[]
      requires start.unstaged == BUNDLE_MEMBERS == bundle.Keys && start.proposal.bundle == bundle
      requires start.generation == generation
      modifies this`staged, this`trace, this`world
      ensures Valid()
      ensures ok <==> forall m | m in bundle :: |bundle[m]| <= MAX_BUNDLE_BYTES
      ensures world == old(world).(files := Durable(),
        section := if ok then Some(Section(p, start.(unstaged := {}))) else None)
      ensures generation in staged && staged == old(staged)[generation := staged[generation]]
      ensures ok ==> staged[generation] == bundle
    {
      hide Inv, Runs, After;
      var pending := BUNDLE_MEMBERS;
      while pending != {}
        invariant Valid() && pending <= BUNDLE_MEMBERS
        invariant At(p, start.(unstaged := pending))
        invariant generation in staged && staged == old(staged)[generation := staged[generation]]
        invariant pending <= bundle.Keys && staged[generation].Keys == BUNDLE_MEMBERS - pending
        invariant forall m | m in staged[generation] ::
          staged[generation][m] == bundle[m] && |bundle[m]| <= MAX_BUNDLE_BYTES
        invariant world == old(world).(files := Durable(), section := world.section)
        decreases pending
      {
        var m :| m in pending;
        ok := StageOne(p, start.(unstaged := pending), m, bundle[m]);
        if !ok {
          return;
        }
        pending := pending - {m};
      }
      ok := true;
    }

    /** One bundle member is published, unless it is oversized. */
    method StageOne(p: Pid, ghost ph: Phase, m: Member, payload: Bytes) returns (ok: bool)
      requires Valid() && At(p, ph) && ph.Staging? && ph.generation == generation && generation in staged
      requires m in ph.unstaged && m in ph.proposal.bundle && ph.proposal.bundle[m] == payload
      modifies this`staged, this`trace, this`world
      ensures Valid()
      ensures ok <==> |payload| <= MAX_BUNDLE_BYTES
      ensures world == old(world).(files := Durable(),
        section := if ok then Some(Section(p, ph.(unstaged := ph.unstaged - {m}))) else None)
      ensures staged == if ok then old(staged)[generation := old(staged)[generation][m := payload]] else old(staged)
    {
      hide Inv, Runs, After;
      Log(StageMember(p, m));
      ok := |payload| <= MAX_BUNDLE_BYTES;
      if ok {
        staged := staged[generation := staged[generation][m := payload]];
      }
    }

    /** Take the lock for an admission, check the attestation and read the live approvals. */
    method OpenAdmission(p: Pid, req: Request, now: int) returns (seen: map<Gate, ApprovalFile>, ok: bool)
      requires Valid() && Unlocked() && !req.action.OtherAction?
      modifies this`trace, this`world
      ensures Valid()
      ensures ok <==> Fresh(c, Durable()) && AllLive(c, approvals, now)
      ensures ok ==> seen == Restrict(approvals, c.gates)
      ensures world == old(world).(section := if ok then Some(Section(p, Reading(Validate(req, now), seen))) else None)
    {
      hide Inv, Runs, After, Fresh;
      seen := map[];
      Log(Acquire(p, Admit(req)));
      ok := CheckAttestation(p, CheckAdmit(req), now);
      if ok {
        seen, ok := ReadApprovals(p, Validate(req, now));
        if ok {
          CompleteReading(c, Durable(), Reading(Validate(req, now), seen));
        }
      }
    }

    /** Accept or refuse what the caller's validator proposes for the snapshot just read. */
    method TakeProposal(
      p: Pid, req: Request, proposal: Option<Proposal>, clock: Clock, boot: string, ghost seen: map<Gate, ApprovalFile>)
      returns (ok: bool)
      requires Valid() && boot == world.boot && At(p, Reading(Validate(req, clock.started), seen)) && seen.Keys == c.gates
      modifies this`trace, this`world
      ensures Valid()
      ensures ok <==> proposal.Some? && ProposalAccepted(boot, req, proposal.value, clock.prepared)
      ensures world == old(world).(section := if !ok then None else Some(Section(p, Prepared(
        req, TakeSnapshot(c, generation, seen), proposal.value, clock.prepared, clock.elapsed))))
    {
      hide Inv, Runs, After, TakeSnapshot, ProposalAccepted;
      if proposal.None? {
        Log(Crash(p));
        return false;
      }
      Log(Prepare(p, proposal.value, clock.prepared, clock.elapsed));
      ok := ProposalAccepted(boot, req, proposal.value, clock.prepared);
    }

    /** Check the store, snapshot it, run the caller's validator and accept or refuse what it proposes. */
    method Propose(p: Pid, req: Request, prepare: Snapshot -> Option<Proposal>, clock: Clock, boot: string)
      returns (accepted: Option<Proposal>)
      requires Valid() && Unlocked() && !req.action.OtherAction? && boot == world.boot
      modifies this`trace, this`world
      ensures Valid()
      ensures var proposal := prepare(SnapshotOf(c, Durable()));
        && (accepted.Some? ==> accepted == proposal)
        && (accepted.Some? <==>
              && Fresh(c, Durable()) && AllLive(c, approvals, clock.started)
              && proposal.Some? && ProposalAccepted(boot, req, proposal.value, clock.prepared))
      ensures world == old(world).(section := if accepted.None? then None else Some(Section(p, Prepared(
        req, SnapshotOf(c, Durable()), accepted.value, clock.prepared, clock.elapsed))))
    {
      hide Logged, Fresh, ProposalAccepted, TakeSnapshot;
      accepted := None;
      var seen, open := OpenAdmission(p, req, clock.started);
      if !open {
        return;
      }
      var proposal := prepare(TakeSnapshot(c, generation, seen));
      var ok := TakeProposal(p, req, proposal, clock, boot, seen);
      if ok {
        accepted := proposal;
      }
    }

    /** Advance the generation for an admission. */
    method AdvanceGeneration(p: Pid, ghost ph: Phase) returns (ok: bool)
      requires Valid() && At(p, ph) && ph.Prepared?
      modifies this`generation, this`trace, this`world
      ensures Valid()
      ensures ok <==> old(generation) < MAX_GENERATION
      ensures generation == old(generation) + (if ok then 1 else 0)
      ensures ok ==> generation !in staged && Stale(Durable())
      ensures world == old(world).(files := Durable(), section := if !ok then None else Some(Section(p, Reading(
        Recheck(ph.req, ph.validated, ph.proposal, ph.now, ph.elapsed, generation), map[]))))
    {
      hide Inv, Runs, After;
      Unstaged(c, world);
      Log(AdvanceForAdmission(p));
      ok := generation < MAX_GENERATION;
      if ok {
        generation := generation + 1;
      }
    }

    /** Re-read the store at the new generation and create the staging directory. */
    method OpenStaging(p: Pid, task: Task) returns (snapshot: Snapshot, ok: bool)
      requires Valid() && At(p, Reading(task, map[])) && task.Recheck? && task.generation == generation
      requires generation !in staged
      requires task.validated.approvals == SnapshotOf(c, Durable()).approvals
      requires task.validated.receipts == SnapshotOf(c, Durable()).receipts
      modifies this`staged, this`trace, this`world
      ensures Valid()
      ensures ok <==> AllLive(c, approvals, task.now)
      ensures ok ==> snapshot == SnapshotOf(c, Durable())
      ensures staged == if ok then old(staged)[generation := map[]] else old(staged)
      ensures world == old(world).(files := Durable(), section := if !ok then None else Some(Section(p, Staging(
        task.req, task.validated, snapshot, task.proposal, generation,
        task.elapsed + (task.proposal.deadline - task.now), BUNDLE_MEMBERS))))
    {
      hide Inv, Runs, After;
      var seen;
      seen, ok := ReadApprovals(p, task);
      snapshot := TakeSnapshot(c, generation, seen);
      if ok {
        CompleteReading(c, Durable(), Reading(task, seen));
        Log(Stage(p));
        staged := staged[generation := map[]];
      }
    }

    /** Publish the record with one rename, unless the deadline has passed. */
    method PublishRecord(p: Pid, ghost ph: Phase, record: Commit, now: int) returns (ok: bool)
      requires Valid() && At(p, ph) && ph.Staging? && ph.unstaged == {} && ph.generation == generation
      requires generation in staged && record == RecordOf(world, ph)
      modifies this`commit, this`trace, this`world
      ensures Valid()
      ensures world.boot == old(world).boot && world.applied == old(world).applied
      ensures ok <==> now < record.deadline
      ensures commit == if ok then Some(record) else old(commit)
      ensures ok ==> At(p, Reading(Attest(ByAdmission, generation), map[]))
      ensures !ok ==> Unlocked()
    {
      hide Inv, Runs, After;
      Log(PublishCommit(p, now));
      ok := now < record.deadline;
      if ok {
        commit := Some(record);
      }
    }

    /** From the advanced generation to the attested commit, or a refusal that leaves the store stale. */
    method CommitProposal(p: Pid, req: Request, proposal: Proposal, clock: Clock, boot: string, validated: Snapshot)
      returns (record: Option<Commit>)
      requires Valid() && boot == world.boot && proposal.bundle.Keys == BUNDLE_MEMBERS && generation !in staged
      requires At(p, Reading(
        Recheck(req, validated, proposal, clock.prepared, clock.elapsed, generation), map[]))
      requires validated.approvals == SnapshotOf(c, Durable()).approvals
      requires validated.receipts == SnapshotOf(c, Durable()).receipts
      modifies this`attestation, this`commit, this`staged, this`trace, this`world
      ensures Valid() && Unlocked()
      ensures world.boot == old(world).boot && world.applied == old(world).applied
      ensures record.Some? <==>
        && AllLive(c, approvals, clock.prepared)
        && (forall m | m in proposal.bundle :: |proposal.bundle[m]| <= MAX_BUNDLE_BYTES)
        && clock.committing < proposal.deadline
      ensures record.Some? ==>
        && commit == record && Fresh(c, Durable()) && staged == old(staged)[generation := proposal.bundle]
        && record.value == Commit(req, generation, Sha256OfSnapshot(SnapshotOf(c, Durable())), proposal.deadline,
             clock.elapsed + (proposal.deadline - clock.prepared), boot, Manifest(proposal.bundle), generation)
      ensures record.None? ==>
        && commit == old(commit) && attestation == old(attestation)
        && staged.Keys <= old(staged).Keys + {generation}
      ensures forall g | g in old(staged) :: g in staged && staged[g] == old(staged)[g]
    {
      hide Logged, Fresh, Digests, Receipts, ApprovalLive, Manifest, RecordOf;
      record := None;
      var snapshot, ok := OpenStaging(p, Recheck(req, validated, proposal, clock.prepared, clock.elapsed, generation));
      if !ok {
        return;
      }
      var deadline := clock.elapsed + (proposal.deadline - clock.prepared);
      ghost var ph := Staging(req, validated, snapshot, proposal, generation, deadline, BUNDLE_MEMBERS);
      ok := StageBundle(p, ph, proposal.bundle);
      if !ok {
        return;
      }
      var published := Commit(req, generation, Sha256OfSnapshot(snapshot), proposal.deadline, deadline, boot,
                              Manifest(proposal.bundle), generation);
      RecordIs(world, ph.(unstaged := {}), published);
      ok := FinishCommit(p, ph.(unstaged := {}), published, clock.committing);
      if ok {
        record := Some(published);
      }
    }

    /** Publish the record and attest the store; a passed deadline refuses and writes nothing. */
    method FinishCommit(p: Pid, ghost ph: Phase, record: Commit, now: int) returns (ok: bool)
      requires Valid() && At(p, ph) && ph.Staging? && ph.unstaged == {} && ph.generation == generation
      requires generation in staged && record == RecordOf(world, ph) && c.gates <= approvals.Keys
      modifies this`attestation, this`commit, this`trace, this`world
      ensures Valid() && Unlocked()
      ensures world.boot == old(world).boot && world.applied == old(world).applied
      ensures ok <==> now < record.deadline
      ensures if ok then commit == Some(record) && Fresh(c, Durable())
              else commit == old(commit) && attestation == old(attestation)
    {
      hide Logged, Fresh, RecordOf;
      ok := PublishRecord(p, ph, record, now);
      if ok {
        AttestStore(p, ByAdmission);
      }
    }

    /**
     Admit one action. Success is exactly Admissible. A refusal before the advance changes
     nothing; a refusal after it leaves the store stale, hence held, with nothing admitted.
     */
    method AdmitAction(p: Pid, req: Request, prepare: Snapshot -> Option<Proposal>, clock: Clock, boot: string)
      returns (record: Option<Commit>)
      requires Valid() && Unlocked() && boot == world.boot
      modifies this`generation, this`attestation, this`commit, this`staged, this`trace, this`world
      ensures Valid() && Unlocked()
      ensures world.boot == old(world).boot && world.applied == old(world).applied
      ensures record.Some? <==>
        Admissible(c, old(world), req, prepare(SnapshotOf(c, old(Durable()))), clock)
      ensures record.Some? ==>
        var proposal := prepare(SnapshotOf(c, old(Durable()))).value;
        && generation == old(generation) + 1 && commit == record && Fresh(c, Durable())
        && staged == old(staged)[generation := proposal.bundle]
        && record.value == Commit(req, generation, Sha256OfSnapshot(SnapshotOf(c, Durable())), proposal.deadline,
             clock.elapsed + (proposal.deadline - clock.prepared), boot, Manifest(proposal.bundle), generation)
      ensures record.None? ==>
        if ReachesAdvance(c, old(world), req, prepare(SnapshotOf(c, old(Durable()))), clock)
        then generation == old(generation) + 1 && Stale(Durable()) && commit == old(commit)
          && attestation == old(attestation) && staged.Keys <= old(staged).Keys + {generation}
        else Durable() == old(Durable())
      ensures forall g | g in old(staged) :: g in staged && staged[g] == old(staged)[g]
    {
      hide Logged, Fresh, AllLive, Digests, Receipts, Manifest;
      record := None;
      if req.action.OtherAction? {
        return;
      }
      var accepted := Propose(p, req, prepare, clock, boot);
      if accepted.None? {
        return;
      }
      var proposal, validated := accepted.value, SnapshotOf(c, Durable());
      var ok := AdvanceGeneration(p, Prepared(req, validated, proposal, clock.prepared, clock.elapsed));
      if ok {
        record := CommitProposal(p, req, proposal, clock, boot, validated);
      }
    }

    /** Verify a loaded record against the live store and write the ledger. */
    method VerifyAndSpend(p: Pid, record: Commit, now: int, elapsed: int) returns (ok: bool)
      requires Valid() && At(p, Reading(Verify(record, now), map[]))
      modifies this`consumed, this`trace, this`world
      ensures Valid()
      ensures ok <==>
        && AllLive(c, approvals, now)
        && Confirmed(old(Durable()), record, SnapshotOf(c, old(Durable())), now, elapsed)
      ensures consumed == if ok then record.generation else old(consumed)
      ensures world == old(world).(files := Durable(),
        section := if ok then Some(Section(p, Spent(record, SnapshotOf(c, old(Durable()))))) else None)
    {
      hide Logged, Confirmed, TakeSnapshot;
      ok := ConfirmRecord(p, record, now, elapsed);
      if ok {
        SpendRecord(p, record, SnapshotOf(c, Durable()));
      }
    }

    /** Read the live approvals and compare the record with them, the clocks and its bundle. */
    method ConfirmRecord(p: Pid, record: Commit, now: int, elapsed: int) returns (ok: bool)
      requires Valid() && At(p, Reading(Verify(record, now), map[]))
      modifies this`trace, this`world
      ensures Valid()
      ensures ok <==>
        AllLive(c, approvals, now) && Confirmed(Durable(), record, SnapshotOf(c, Durable()), now, elapsed)
      ensures world == old(world).(section :=
        if ok then Some(Section(p, Verified(record, SnapshotOf(c, Durable())))) else None)
    {
      hide Inv, Runs, After, Confirmed;
      var seen;
      seen, ok := ReadApprovals(p, Verify(record, now));
      if !ok {
        return;
      }
      CompleteReading(c, Durable(), Reading(Verify(record, now), seen));
      hide TakeSnapshot;
      Log(Confirm(p, elapsed));
      ok := Confirmed(Durable(), record, TakeSnapshot(c, generation, seen), now, elapsed);
    }

    /** The ledger write. */
    method SpendRecord(p: Pid, record: Commit, ghost snapshot: Snapshot)
      requires Valid() && At(p, Verified(record, snapshot))
      modifies this`consumed, this`trace, this`world
      ensures Valid() && consumed == record.generation
      ensures world == old(world).(files := Durable(), section := Some(Section(p, Spent(record, snapshot))))
    {
      hide Inv, Runs, After;
      Log(Spend(p));
      consumed := record.generation;
    }

    /** Take the lock, load the published record and check the store and the ledger. */
    method LoadPublished(p: Pid, req: Request, now: int, boot: string) returns (ok: bool)
      requires Valid() && Unlocked() && boot == world.boot && !req.action.OtherAction?
      modifies this`trace, this`world
      ensures Valid()
      ensures ok <==>
        && commit.Some? && Loadable(Durable(), boot, req, commit.value)
        && Fresh(c, Durable()) && consumed < commit.value.generation
      ensures world == old(world).(section :=
        if ok then Some(Section(p, Reading(Verify(commit.value, now), map[]))) else None)
    {
      hide Inv, Runs, After;
      Log(Acquire(p, Consume(req)));
      Log(Load(p));
      if commit.None? || !Loadable(Durable(), boot, req, commit.value) {
        return false;
      }
      ok := CheckAttestation(p, CheckConsume(commit.value), now);
    }

    /** Run the effect, when the caller gave one, and release the lock. */
    method FinishConsumption(p: Pid, ghost record: Commit, ghost snapshot: Snapshot, effect: bool)
      requires Valid() && At(p, Spent(record, snapshot))
      modifies this`trace, this`world
      ensures Valid()
      ensures world == old(world).(section := None, applied :=
        if effect then old(world).applied + [Effect(record.generation, snapshot)] else old(world).applied)
    {
      hide Inv, Runs, After;
      if effect {
        Log(ApplyEffect(p));
      } else {
        Log(Crash(p));
      }
    }

    /**
     Spend the published admission. Success is exactly Consumable; it records the spend before
     the effect, and the effect, when there is one, happens once. A refusal changes nothing.
     */
    method ConsumeAdmission(p: Pid, req: Request, now: int, elapsed: int, boot: string, effect: bool)
      returns (record: Option<Commit>)
      requires Valid() && Unlocked() && boot == world.boot
      modifies this`consumed, this`trace, this`world
      ensures Valid() && Unlocked() && world.boot == old(world).boot
      ensures record.Some? <==> Consumable(c, old(world), req, now, elapsed)
      ensures record.Some? ==> record == commit && consumed == commit.value.generation
      ensures record.None? ==> consumed == old(consumed)
      ensures world.applied == if record.Some? && effect
        then old(world).applied + [Effect(record.value.generation, SnapshotOf(c, old(Durable())))]
        else old(world).applied
    {
      hide Inv, Runs, After;
      record := None;
      if req.action.OtherAction? {
        return;
      }
      var loaded := LoadPublished(p, req, now, boot);
      if !loaded {
        return;
      }
      var spent := VerifyAndSpend(p, commit.value, now, elapsed);
      if !spent {
        return;
      }
      FinishConsumption(p, commit.value, SnapshotOf(c, Durable()), effect);
      record := commit;
    }

    /**
     Admission and consumption end to end. What was admitted can be consumed for the same request, in
     the same boot, exactly while every approval is live and neither deadline has passed.
     */
    method AdmitThenConsume(
      p: Pid, req: Request, prepare: Snapshot -> Option<Proposal>, clock: Clock, boot: string,
      now: int, elapsed: int, effect: bool)
      returns (record: Option<Commit>, spent: bool)
      requires Valid() && Unlocked() && boot == world.boot
      modifies this`generation, this`attestation, this`commit, this`staged, this`consumed, this`trace, this`world
      ensures Valid() && Unlocked() && world.boot == old(world).boot
      ensures record.Some? <==> Admissible(c, old(world), req, prepare(SnapshotOf(c, old(Durable()))), clock)
      ensures record.Some? ==>
        (spent <==> AllLive(c, approvals, now) && now < record.value.deadline && elapsed < record.value.monotonicDeadline)
      ensures spent ==> record.Some? && consumed == record.value.generation == old(generation) + 1
      ensures !spent ==> consumed == old(consumed)
      ensures world.applied == if spent && effect
        then old(world).applied + [Effect(generation, SnapshotOf(c, Durable()))] else old(world).applied
    {
      LedgerBounded(c, world);
      hide Logged, Fresh, AllLive, Digests, Receipts, Admissible, ReachesAdvance, Consumable, Manifest;
      spent := false;
      record := AdmitAction(p, req, prepare, clock, boot);
      if record.Some? {
        AdmittedIsConsumable(c, world, req, now, elapsed);
        var consumption := ConsumeAdmission(p, req, now, elapsed, boot, effect);
        spent := consumption.Some?;
      }
    }

    /** A writer that skips the lock replaces or deletes one approval. */
    method Overwrite(gate: Gate, content: Option<ApprovalFile>)
      requires Valid() && Unlocked()
      modifies this`approvals, this`trace, this`world
      ensures Valid() && Unlocked()
      ensures world == old(world).(files := Durable())
      ensures approvals == if content.Some? then old(approvals)[gate := content.value] else old(approvals) - {gate}
    {
      hide Inv, Runs, After;
      Log(Rogue(gate, content));
      approvals := if content.Some? then approvals[gate := content.value] else approvals - {gate};
    }

    /** The machine restarts under another boot identity; the files stay. */
    ghost method Restart(boot: string)
      requires Valid()
      modifies this`trace, this`world
      ensures Valid() && Unlocked()
      ensures world == old(world).(section := None, boot := boot)
    {
      hide Inv, Runs, After;
      Log(Reboot(boot));
    }

    /** Report what a crash left behind, from the staging entries in any listing order. */
    method Recover(entries: seq<nat>) returns (report: Recovery)
      requires Valid() && multiset(entries) == multiset(staged.Keys)
      ensures report.published == Published(Durable()) && report.generation == generation
      ensures report.consumed == consumed
      ensures forall g :: g in report.orphaned <==> g in staged && g > Published(Durable())
      ensures forall i, j | 0 <= i < j < |report.orphaned| :: report.orphaned[i] < report.orphaned[j]
      ensures report.consumable <==> commit.Some? && consumed < commit.value.generation
      ensures forall g | g in report.orphaned :: g !in world.committed
    {
      hide Runs, After, EffectsOk, CommitComplete, CommitBound;
      var published := if commit.Some? then commit.value.generation else 0;
      var orphaned := Above(entries, staged.Keys, published);
      report := Recovery(published, generation, consumed, orphaned, published > consumed);
    }
  }

  /** The listed generations above `published`, in increasing order. */
  method Above(entries: seq<nat>, ghost names: set<nat>, published: nat) returns (orphaned: seq<nat>)
    requires multiset(entries) == multiset(names)
    ensures forall g :: g in orphaned <==> g in names && g > published
    ensures forall a, b | 0 <= a < b < |orphaned| :: orphaned[a] < orphaned[b]
  {
    var sorted := Ordering.Sort(Numeric(), entries);
    SortedEntries(entries, names, sorted);
    orphaned := [];
    for i := 0 to |sorted|
      invariant forall g :: g in orphaned <==> g in sorted[..i] && g > published
      invariant forall a, b | 0 <= a < b < |orphaned| :: orphaned[a] < orphaned[b]
    {
      assert sorted[..i + 1] == sorted[..i] + [sorted[i]];
      if sorted[i] > published {
        forall a | 0 <= a < |orphaned|
          ensures orphaned[a] < sorted[i]
        {
          assert orphaned[a] in orphaned;
          var k :| 0 <= k < i && sorted[k] == orphaned[a];
          assert sorted[k] < sorted[i];
        }
        orphaned := orphaned + [sorted[i]];
      }
    }
    assert sorted[..|sorted|] == sorted;
  }

  /** A listing of a set, sorted, is the set in strictly increasing order. */
  lemma SortedEntries(entries: seq<nat>, names: set<nat>, s: seq<nat>)
    requires multiset(entries) == multiset(names) && s == Ordering.Sort(Numeric(), entries)
    ensures forall g :: g in s <==> g in names
    ensures forall i, j | 0 <= i < j < |s| :: s[i] < s[j]
  {
    Ordering.SortPermutes(Numeric(), entries);
    Ordering.SortSorts(Numeric(), entries);
    Ordering.Enumerates(s, names);
    forall i, j | 0 <= i < j < |s|
      ensures s[i] < s[j]
    {
      assert s[i] != s[j];
      assert !Numeric()(s[j], s[i]);
    }
  }

  /** The next generation is new to the attestation and to the staging area. */
  lemma Unstaged(c: Config, w: World)
    requires Inv(c, w)
    ensures w.files.generation + 1 !in w.files.staged
    ensures Stale(w.files.(generation := w.files.generation + 1))
  {
    hide HistoryOk, EffectsOk, PhaseOk, CommitComplete;
  }

  lemma LedgerBounded(c: Config, w: World)
    requires Inv(c, w)
    ensures w.files.consumed <= w.files.generation
  {
    hide HistoryOk, EffectsOk, PhaseOk, CommitComplete;
  }

  /** A fresh store with an unspent commit of its own generation and boot, as an admission leaves it. */
  ghost predicate JustAdmitted(c: Config, w: World, req: Request) {
    && !req.action.OtherAction? && Fresh(c, w.files) && w.files.commit.Some?
    && var record := w.files.commit.value;
    && record.request == req && record.boot == w.boot && record.bundleDir in w.files.staged
    && w.files.consumed < record.generation == w.files.generation
    && record.snapshotDigest == Sha256OfSnapshot(SnapshotOf(c, w.files))
    && record.manifest == Manifest(w.files.staged[record.bundleDir])
  }

  /** Such a commit is consumable exactly while the approvals are live and neither deadline has passed. */
  lemma AdmittedIsConsumable(c: Config, w: World, req: Request, now: int, elapsed: int)
    requires JustAdmitted(c, w, req)
    ensures Consumable(c, w, req, now, elapsed) <==>
      && AllLive(c, w.files.approvals, now)
      && now < w.files.commit.value.deadline && elapsed < w.files.commit.value.monotonicDeadline
  {
    hide Fresh, AllLive, Digests, Receipts;
  }

  /** The record a finished bundle is committed under. */
  lemma RecordIs(w: World, ph: Phase, record: Commit)
    requires ph.Staging? && ph.generation in w.files.staged
    requires record == Commit(ph.req, ph.generation, Sha256OfSnapshot(ph.snapshot), ph.proposal.deadline,
      ph.monotonicDeadline, w.boot, Manifest(w.files.staged[ph.generation]), ph.generation)
    ensures record == RecordOf(w, ph)
  {
  }
}
