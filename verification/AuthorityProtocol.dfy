/**
 The LOCAL authority protocol as a transition system. Many processes share one issuer store;
 each transaction (install approvals, enrol, admit, consume) runs while its process holds the
 store lock and is broken into one step per atomic publish and one step per approval file read.
 Between any two steps the holder may crash, the machine may reboot, and a rogue writer may
 rewrite or delete an approval without the lock.

 SHA-256 over canonical JSON is represented by the constructors of Digest: a free, hence
 injective, function of what is hashed.
 */
module AuthorityProtocol {
  import opened Basics

  const MAX_GENERATION: nat := 0x7fff_ffff_ffff_ffff
  const MAX_BUNDLE_BYTES: nat := 4 * 1024 * 1024
  const BUNDLE_MEMBERS: set<Member> := {RequestJson, PrerequisitesJson, DescriptorJson}

  type Gate = string
  datatype Member = RequestJson | PrerequisitesJson | DescriptorJson | OtherMember(name: string)

  /** The two admitted bounded actions; any other action name is refused before the lock is taken. */
  datatype Action = IssueRuntimeProfile | IssueQualificationDecision | OtherAction(name: string)

  type Pid = nat

  /** What the protocol reads out of an approval. `revoked` is true unless the field is literally false. */
  datatype Approval = Approval(revoked: bool, expiresAt: Option<int>, receipt: string)

  /** An approval file: its exact bytes, and what they decode to; None is malformed JSON or expiry. */
  datatype ApprovalFile = ApprovalFile(raw: Bytes, content: Option<Approval>)

  /** One issuer and its admitted gate set. */
  datatype Config = Config(issuer: string, gates: set<Gate>)

  datatype Digest =
    | Sha256OfApproval(file: ApprovalFile)
    | Sha256OfBytes(raw: Bytes)
    | Sha256OfStore(issuer: string, members: map<Gate, Digest>)
    | Sha256OfSnapshot(snapshot: Snapshot)

  datatype Snapshot = Snapshot(
    generation: nat, issuer: string, approvals: map<Gate, Digest>, receipts: map<Gate, string>)

  datatype Identity = Identity(name: string, boot: string)

  datatype Request = Request(action: Action, gate: Gate, identity: Identity, source: string)

  /** What the caller's semantic validator returned; deadlines are nanoseconds. */
  datatype Proposal = Proposal(identity: Identity, source: string, deadline: int, bundle: map<Member, Bytes>)

  datatype Attestation = Attestation(generation: nat, digest: Digest)

  /** The published admission record. The staging directory is named after a generation. */
  datatype Commit = Commit(
    request: Request, generation: nat, snapshotDigest: Digest, deadline: int, monotonicDeadline: int,
    boot: string, manifest: map<Member, Digest>, bundleDir: nat)

  /** The durable files. An absent generation or ledger file reads as 0. */
  datatype Files = Files(
    generation: nat, approvals: map<Gate, ApprovalFile>, attestation: Option<Attestation>,
    commit: Option<Commit>, staged: map<nat, map<Member, Bytes>>, consumed: nat)

  datatype Author = ByWriter | ByEnrolment | ByAdmission

  /** Why a section is reading the approvals, gate by gate. */
  datatype Task =
    | Survey(payloads: map<Gate, ApprovalFile>)
    | Attest(author: Author, generation: nat)
    | CheckAdmit(req: Request)
    | Validate(req: Request, now: int)
    | Recheck(req: Request, validated: Snapshot, proposal: Proposal, now: int, elapsed: int, generation: nat)
    | CheckConsume(record: Commit)
    | Verify(record: Commit, now: int)

  /** Where a critical section stands. */
  datatype Phase =
    | Reading(task: Task, seen: map<Gate, ApprovalFile>)
    | Installing(payloads: map<Gate, ApprovalFile>, generation: nat, pending: set<Gate>)
    | Prepared(req: Request, validated: Snapshot, proposal: Proposal, now: int, elapsed: int)
    | Staging(req: Request, validated: Snapshot, snapshot: Snapshot, proposal: Proposal,
              generation: nat, monotonicDeadline: int, unstaged: set<Member>)
    | Loading(req: Request)
    | Verified(record: Commit, snapshot: Snapshot)
    | Spent(record: Commit, snapshot: Snapshot)

  /** The critical section: who holds the lock, and where that process stands. */
  datatype Section = Section(p: Pid, phase: Phase)

  datatype Effect = Effect(generation: nat, snapshot: Snapshot)

  /**
   The whole system. The last three fields are history: the generations committed so far, the
   snapshot each committed admission's validator was handed, and the effects applied so far.
   */
  datatype World = World(
    files: Files, section: Option<Section>, boot: string,
    committed: seq<nat>, prepared: map<nat, Snapshot>, applied: seq<Effect>)

  datatype Operation =
    | ReplaceApprovals(payloads: map<Gate, ApprovalFile>)
    | Enrol
    | Admit(req: Request)
    | Consume(req: Request)

  datatype Event =
    | Acquire(p: Pid, op: Operation)
    | Read(p: Pid, gate: Gate)
    | AdvanceForWrite(p: Pid)
    | Install(p: Pid, gate: Gate)
    | PublishAttestation(p: Pid)
    | CheckBypass(p: Pid, now: int)
    | Prepare(p: Pid, proposal: Proposal, now: int, elapsed: int)
    | AdvanceForAdmission(p: Pid)
    | Stage(p: Pid)
    | StageMember(p: Pid, member: Member)
    | PublishCommit(p: Pid, now: int)
    | Load(p: Pid)
    | Confirm(p: Pid, elapsed: int)
    | Spend(p: Pid)
    | ApplyEffect(p: Pid)
    | Crash(p: Pid)
    | Reboot(boot: string)
    | Rogue(gate: Gate, content: Option<ApprovalFile>)

  /******* What the sections compute *******/

  function Digests(seen: map<Gate, ApprovalFile>): map<Gate, Digest> {
    map g | g in seen :: Sha256OfApproval(seen[g])
  }

  function Receipts(seen: map<Gate, ApprovalFile>): map<Gate, string> {
    map g | g in seen :: if seen[g].content.Some? then seen[g].content.value.receipt else ""
  }

  function StoreDigest(c: Config, seen: map<Gate, ApprovalFile>): Digest {
    Sha256OfStore(c.issuer, Digests(seen))
  }

  function TakeSnapshot(c: Config, generation: nat, seen: map<Gate, ApprovalFile>): Snapshot {
    Snapshot(generation, c.issuer, Digests(seen), Receipts(seen))
  }

  function Manifest(bundle: map<Member, Bytes>): map<Member, Digest> {
    map m | m in bundle :: Sha256OfBytes(bundle[m])
  }

  predicate ApprovalLive(file: ApprovalFile, now: int) {
    match file.content
    case None => false
    case Some(a) => !a.revoked && (a.expiresAt.Some? ==> now < a.expiresAt.value)
  }

  function ToRead(c: Config, task: Task): set<Gate> {
    if task.Survey? then c.gates - task.payloads.Keys else c.gates
  }

  /** Snapshot reads refuse revoked and expired approvals; digest reads take the bytes as they are. */
  predicate Readable(task: Task, file: ApprovalFile) {
    match task
    case Validate(_, now) => ApprovalLive(file, now)
    case Recheck(_, _, _, now, _, _) => ApprovalLive(file, now)
    case Verify(_, now) => ApprovalLive(file, now)
    case _ => true
  }

  predicate AttestationCurrent(c: Config, f: Files, seen: map<Gate, ApprovalFile>) {
    f.attestation == Some(Attestation(f.generation, StoreDigest(c, seen)))
  }

  function Published(f: Files): nat {
    if f.commit.Some? then f.commit.value.generation else 0
  }

  /** `record` may be loaded by a consumer of `req`. */
  predicate Loadable(f: Files, boot: string, req: Request, record: Commit) {
    record.bundleDir in f.staged && record.request == req && record.boot == boot
  }

  predicate ProposalAccepted(boot: string, req: Request, proposal: Proposal, now: int) {
    && proposal.bundle.Keys == BUNDLE_MEMBERS
    && req.identity == proposal.identity
    && req.source == proposal.source
    && proposal.identity.boot == boot
    && now < proposal.deadline
  }

  predicate BundleMatches(f: Files, record: Commit) {
    && record.bundleDir in f.staged
    && forall m | m in record.manifest ::
         m in f.staged[record.bundleDir] && Sha256OfBytes(f.staged[record.bundleDir][m]) == record.manifest[m]
  }

  predicate Confirmed(f: Files, record: Commit, snapshot: Snapshot, now: int, elapsed: int) {
    && snapshot.generation == record.generation
    && Sha256OfSnapshot(snapshot) == record.snapshotDigest
    && now < record.deadline
    && elapsed < record.monotonicDeadline
    && BundleMatches(f, record)
  }

  /******* Steps *******/

  predicate Holds(w: World, p: Pid) {
    w.section.Some? && w.section.value.p == p
  }

  predicate Complete(c: Config, ph: Phase) {
    ph.Reading? && ph.seen.Keys == ToRead(c, ph.task)
  }

  predicate OperationAccepted(c: Config, op: Operation) {
    match op
    case ReplaceApprovals(payloads) => payloads.Keys != {} && payloads.Keys <= c.gates
    case Enrol => true
    case Admit(req) => !req.action.OtherAction?
    case Consume(req) => !req.action.OtherAction?
  }

  /** The step can be taken; whether it advances the section or refuses is decided by Do. */
  predicate Enabled(c: Config, w: World, e: Event) {
    match e
    case Acquire(p, op) => w.section == None && OperationAccepted(c, op)
    case Reboot(_) => true
    case Rogue(_, _) => true
    case _ => Holds(w, e.p) && InSection(c, w.files, w.section.value.phase, e)
  }

  /** `e` is the next step of a section that stands at `ph`. */
  predicate InSection(c: Config, f: Files, ph: Phase, e: Event) {
    match e
    case Read(_, g) => ph.Reading? && g in ToRead(c, ph.task) - ph.seen.Keys
    case AdvanceForWrite(_) => Complete(c, ph) && ph.task.Survey?
    case Install(_, g) => ph.Installing? && g in ph.pending && g in ph.payloads
    case PublishAttestation(_) => Complete(c, ph) && ph.task.Attest?
    case CheckBypass(_, _) => Complete(c, ph) && (ph.task.CheckAdmit? || ph.task.CheckConsume?)
    case Prepare(_, _, _, _) => Complete(c, ph) && ph.task.Validate?
    case AdvanceForAdmission(_) => ph.Prepared?
    case Stage(_) => Complete(c, ph) && ph.task.Recheck?
    case StageMember(_, m) =>
      ph.Staging? && m in ph.unstaged && m in ph.proposal.bundle && ph.generation in f.staged
    case PublishCommit(_, _) => ph.Staging? && ph.unstaged == {} && ph.generation in f.staged
    case Load(_) => ph.Loading?
    case Confirm(_, _) => Complete(c, ph) && ph.task.Verify?
    case Spend(_) => ph.Verified?
    case ApplyEffect(_) => ph.Spent?
    case Crash(_) => true
    case _ => false
  }

  /** Leave the critical section: a completed, refused or crashed transaction releases the lock. */
  function Leave(w: World): World {
    w.(section := None)
  }

  function Go(w: World, p: Pid, ph: Phase): World {
    w.(section := Some(Section(p, ph)))
  }

  function Start(w: World, p: Pid, op: Operation): World {
    var ph := match op
      case ReplaceApprovals(payloads) => Reading(Survey(payloads), map[])
      case Enrol => Reading(Attest(ByEnrolment, w.files.generation), map[])
      case Admit(req) => Reading(CheckAdmit(req), map[])
      case Consume(req) => Loading(req);
    w.(section := Some(Section(p, ph)))
  }

  function DoRead(w: World, p: Pid, g: Gate): World
    requires w.section.Some? && w.section.value.phase.Reading?
  {
    var ph := w.section.value.phase;
    if g in w.files.approvals && Readable(ph.task, w.files.approvals[g]) then
      Go(w, p, ph.(seen := ph.seen[g := w.files.approvals[g]]))
    else
      Leave(w)
  }

  function DoAdvanceForWrite(w: World, p: Pid): World
    requires w.section.Some? && w.section.value.phase.Reading? && w.section.value.phase.task.Survey?
  {
    if w.files.generation >= MAX_GENERATION then Leave(w) else
    var next := w.files.generation + 1;
    var payloads := w.section.value.phase.task.payloads;
    Go(w.(files := w.files.(generation := next)), p, Installing(payloads, next, payloads.Keys))
  }

  function DoInstall(w: World, p: Pid, g: Gate): World
    requires w.section.Some? && w.section.value.phase.Installing? && g in w.section.value.phase.payloads
  {
    var ph := w.section.value.phase;
    var w1 := w.(files := w.files.(approvals := w.files.approvals[g := ph.payloads[g]]));
    var pending := ph.pending - {g};
    Go(w1, p, if pending == {} then Reading(Attest(ByWriter, ph.generation), map[]) else ph.(pending := pending))
  }

  function DoPublishAttestation(c: Config, w: World, p: Pid): World
    requires w.section.Some? && w.section.value.phase.Reading? && w.section.value.phase.task.Attest?
  {
    var ph := w.section.value.phase;
    Leave(w.(files := w.files.(attestation :=
      Some(Attestation(ph.task.generation, StoreDigest(c, ph.seen))))))
  }

  function DoCheckBypass(c: Config, w: World, p: Pid, now: int): World
    requires w.section.Some? && w.section.value.phase.Reading?
    requires w.section.value.phase.task.CheckAdmit? || w.section.value.phase.task.CheckConsume?
  {
    var ph := w.section.value.phase;
    if !AttestationCurrent(c, w.files, ph.seen) then Leave(w)
    else if ph.task.CheckAdmit? then Go(w, p, Reading(Validate(ph.task.req, now), map[]))
    else if ph.task.record.generation <= w.files.consumed then Leave(w)
    else Go(w, p, Reading(Verify(ph.task.record, now), map[]))
  }

  function DoPrepare(c: Config, w: World, p: Pid, proposal: Proposal, now: int, elapsed: int): World
    requires w.section.Some? && w.section.value.phase.Reading? && w.section.value.phase.task.Validate?
  {
    var ph := w.section.value.phase;
    if ProposalAccepted(w.boot, ph.task.req, proposal, now)
    then Go(w, p, Prepared(ph.task.req, TakeSnapshot(c, w.files.generation, ph.seen), proposal, now, elapsed))
    else Leave(w)
  }

  function DoAdvanceForAdmission(w: World, p: Pid): World
    requires w.section.Some? && w.section.value.phase.Prepared?
  {
    if w.files.generation >= MAX_GENERATION then Leave(w) else
    var next := w.files.generation + 1;
    var Prepared(req, validated, proposal, now, elapsed) := w.section.value.phase;
    Go(w.(files := w.files.(generation := next)), p,
       Reading(Recheck(req, validated, proposal, now, elapsed, next), map[]))
  }

  /** Refuse a changed store, then create the staging directory exclusively. */
  function DoStage(c: Config, w: World, p: Pid): World
    requires w.section.Some? && w.section.value.phase.Reading? && w.section.value.phase.task.Recheck?
  {
    var ph := w.section.value.phase;
    var Recheck(req, validated, proposal, now, elapsed, generation) := ph.task;
    var snapshot := TakeSnapshot(c, w.files.generation, ph.seen);
    if snapshot.approvals != validated.approvals || snapshot.receipts != validated.receipts
       || generation in w.files.staged
    then Leave(w)
    else Go(w.(files := w.files.(staged := w.files.staged[generation := map[]])), p,
            Staging(req, validated, snapshot, proposal, generation,
                    elapsed + (proposal.deadline - now), BUNDLE_MEMBERS))
  }

  function DoStageMember(w: World, p: Pid, m: Member): World
    requires w.section.Some? && w.section.value.phase.Staging? && m in w.section.value.phase.proposal.bundle
    requires w.section.value.phase.generation in w.files.staged
  {
    var ph := w.section.value.phase;
    var payload := ph.proposal.bundle[m];
    if |payload| > MAX_BUNDLE_BYTES then Leave(w) else
    var dir := w.files.staged[ph.generation];
    Go(w.(files := w.files.(staged := w.files.staged[ph.generation := dir[m := payload]])), p,
       ph.(unstaged := ph.unstaged - {m}))
  }

  function RecordOf(w: World, ph: Phase): Commit
    requires ph.Staging? && ph.generation in w.files.staged
  {
    Commit(ph.req, ph.generation, Sha256OfSnapshot(ph.snapshot), ph.proposal.deadline,
           ph.monotonicDeadline, w.boot, Manifest(w.files.staged[ph.generation]), ph.generation)
  }

  function DoPublishCommit(w: World, p: Pid, now: int): World
    requires w.section.Some? && w.section.value.phase.Staging? && w.section.value.phase.generation in w.files.staged
  {
    var ph := w.section.value.phase;
    if ph.proposal.deadline <= now then Leave(w) else
    Go(w.(files := w.files.(commit := Some(RecordOf(w, ph))),
          committed := w.committed + [ph.generation],
          prepared := w.prepared[ph.generation := ph.validated]),
       p, Reading(Attest(ByAdmission, ph.generation), map[]))
  }

  function DoLoad(w: World, p: Pid): World
    requires w.section.Some? && w.section.value.phase.Loading?
  {
    match w.files.commit
    case None => Leave(w)
    case Some(record) =>
      if Loadable(w.files, w.boot, w.section.value.phase.req, record)
      then Go(w, p, Reading(CheckConsume(record), map[]))
      else Leave(w)
  }

  function DoConfirm(c: Config, w: World, p: Pid, elapsed: int): World
    requires w.section.Some? && w.section.value.phase.Reading? && w.section.value.phase.task.Verify?
  {
    var ph := w.section.value.phase;
    var snapshot := TakeSnapshot(c, w.files.generation, ph.seen);
    if Confirmed(w.files, ph.task.record, snapshot, ph.task.now, elapsed)
    then Go(w, p, Verified(ph.task.record, snapshot))
    else Leave(w)
  }

  /** The ledger is written before the effect. */
  function DoSpend(w: World, p: Pid): World
    requires w.section.Some? && w.section.value.phase.Verified?
  {
    var Verified(record, snapshot) := w.section.value.phase;
    Go(w.(files := w.files.(consumed := record.generation)), p, Spent(record, snapshot))
  }

  function DoApplyEffect(w: World, p: Pid): World
    requires w.section.Some? && w.section.value.phase.Spent?
  {
    var Spent(record, snapshot) := w.section.value.phase;
    Leave(w.(applied := w.applied + [Effect(record.generation, snapshot)]))
  }

  function DoRogue(w: World, g: Gate, content: Option<ApprovalFile>): World {
    w.(files := w.files.(approvals :=
      if content.Some? then w.files.approvals[g := content.value] else w.files.approvals - {g}))
  }

  function Do(c: Config, w: World, e: Event): World
    requires Enabled(c, w, e)
  {
    match e
    case Acquire(p, op) => Start(w, p, op)
    case Read(p, g) => DoRead(w, p, g)
    case AdvanceForWrite(p) => DoAdvanceForWrite(w, p)
    case Install(p, g) => DoInstall(w, p, g)
    case PublishAttestation(p) => DoPublishAttestation(c, w, p)
    case CheckBypass(p, now) => DoCheckBypass(c, w, p, now)
    case Prepare(p, proposal, now, elapsed) => DoPrepare(c, w, p, proposal, now, elapsed)
    case AdvanceForAdmission(p) => DoAdvanceForAdmission(w, p)
    case Stage(p) => DoStage(c, w, p)
    case StageMember(p, m) => DoStageMember(w, p, m)
    case PublishCommit(p, now) => DoPublishCommit(w, p, now)
    case Load(p) => DoLoad(w, p)
    case Confirm(p, elapsed) => DoConfirm(c, w, p, elapsed)
    case Spend(p) => DoSpend(w, p)
    case ApplyEffect(p) => DoApplyEffect(w, p)
    case Crash(p) => Leave(w)
    case Reboot(boot) => w.(section := None, boot := boot)
    case Rogue(g, content) => DoRogue(w, g, content)
  }

  /******* Runs *******/

  /** A store nobody has placed under the protocol: approvals may already exist, nothing else does. */
  predicate Init(w: World) {
    && w.files.generation == 0 && w.files.attestation == None && w.files.commit == None
    && w.files.staged == map[] && w.files.consumed == 0
    && w.section == None
    && w.committed == [] && w.prepared == map[] && w.applied == []
  }

  predicate Runs(c: Config, w: World, es: seq<Event>)
    decreases |es|, 0
  {
    es == [] || (Runs(c, w, es[..|es| - 1]) && Enabled(c, After(c, w, es[..|es| - 1]), es[|es| - 1]))
  }

  function After(c: Config, w: World, es: seq<Event>): World
    requires Runs(c, w, es)
    decreases |es|
  {
    if es == [] then w else Do(c, After(c, w, es[..|es| - 1]), es[|es| - 1])
  }
}
