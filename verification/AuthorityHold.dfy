/** When the store is held, when it is not, and what a crash leaves behind. */
module AuthorityHold {
  import opened Basics
  import opened AuthorityProtocol
  import opened AuthoritySafety
  import opened AuthorityRuns

  /******* A store interrupted after the generation advance is held *******/

  /** The section has advanced the generation and has not yet attested it. */
  ghost predicate AfterAdvance(ph: Phase) {
    || ph.Installing? || ph.Staging?
    || (ph.Reading? && (ph.task.Recheck? || (ph.task.Attest? && !ph.task.author.ByEnrolment?)))
  }

  /** A crash, reboot or refusal between the generation advance and the attestation. */
  ghost predicate Interrupts(c: Config, w: World, e: Event) {
    && Enabled(c, w, e) && !e.PublishAttestation?
    && w.section.Some? && AfterAdvance(w.section.value.phase) && Do(c, w, e).section.None?
  }

  lemma InterruptionLeavesStale(c: Config, w: World, e: Event)
    requires Inv(c, w) && Interrupts(c, w, e)
    ensures Stale(Do(c, w, e).files)
  {
    if e.StageMember? {
      assert Stale(w.files);
    }
  }

  /** A refusal or crash before the generation advance leaves the store as it was. */
  lemma EarlyRefusalChangesNothing(c: Config, w: World, e: Event)
    requires Inv(c, w) && Enabled(c, w, e) && !e.PublishAttestation?
    requires w.section.Some? && !AfterAdvance(w.section.value.phase) && Do(c, w, e).section.None?
    ensures Do(c, w, e).files == w.files
  {
    hide Core;
  }

  ghost predicate HeldTask(task: Task) {
    || task.Survey? || task.CheckAdmit? || task.CheckConsume?
    || (task.Attest? && !task.author.ByAdmission?)
  }

  /** Stale, and no admission or consumption has got past the bypass check. */
  ghost predicate Held(w: World) {
    && Stale(w.files)
    && (w.section.Some? ==>
          var ph := w.section.value.phase;
          ph.Installing? || ph.Loading? || (ph.Reading? && HeldTask(ph.task)))
  }

  /** An enrolment or a writer completes: it publishes its attestation. */
  ghost predicate Reattests(w: World, e: Event) {
    && e.PublishAttestation? && w.section.Some? && w.section.value.phase.Reading?
    && w.section.value.phase.task.Attest? && !w.section.value.phase.task.author.ByAdmission?
  }

  /** No admission was published, staged, spent or applied. */
  ghost predicate SameAdmissions(a: World, b: World) {
    && a.files.commit == b.files.commit && a.files.staged == b.files.staged
    && a.files.consumed == b.files.consumed
    && a.committed == b.committed && a.applied == b.applied
  }

  lemma HeldStep(c: Config, w: World, e: Event)
    requires Inv(c, w) && Held(w) && Enabled(c, w, e) && !Reattests(w, e)
    ensures Held(Do(c, w, e)) && SameAdmissions(w, Do(c, w, e))
    ensures e.CheckBypass? ==> Do(c, w, e).section.None?
  {
    hide Inv, Held, SameAdmissions;
    if e.AdvanceForWrite? {
      HeldAdvance(c, w, e.p);
    } else {
      HeldOther(c, w, e);
    }
  }

  lemma HeldAdvance(c: Config, w: World, p: Pid)
    requires Inv(c, w) && Held(w) && Enabled(c, w, AdvanceForWrite(p))
    ensures Held(Do(c, w, AdvanceForWrite(p))) && SameAdmissions(w, Do(c, w, AdvanceForWrite(p)))
  {
    hide HistoryOk, EffectsOk, CommitComplete, PhaseOk;
    assert w.files.attestation.Some? ==> w.files.attestation.value.generation <= w.files.generation;
    hide Core;
  }

  lemma HeldOther(c: Config, w: World, e: Event)
    requires Held(w) && Enabled(c, w, e) && !Reattests(w, e) && !e.AdvanceForWrite?
    ensures Held(Do(c, w, e)) && SameAdmissions(w, Do(c, w, e))
    ensures e.CheckBypass? ==> Do(c, w, e).section.None?
  {
  }

  /**
   Once stale with the lock free, the store stays held until an enrolment or a writer completes:
   every bypass check refuses, and nothing is admitted, spent or applied, in any interleaving.
   */
  lemma {:induction false} HeldUntilReattested(c: Config, w: World, es: seq<Event>, i: nat, j: nat)
    requires Init(w) && Runs(c, w, es) && i <= j <= |es|
    requires State(c, w, es, i).section.None? && Stale(State(c, w, es, i).files)
    requires forall k | i <= k < j :: !Reattests(State(c, w, es, k), es[k])
    ensures Held(State(c, w, es, j)) && SameAdmissions(State(c, w, es, i), State(c, w, es, j))
    ensures forall k | i <= k < j && es[k].CheckBypass? :: State(c, w, es, k + 1).section.None?
    decreases j - i
  {
    hide Inv, Enabled, Do, Reattests;
    if i < j {
      HeldUntilReattested(c, w, es, i, j - 1);
      ReachableInv(c, w, es, j - 1);
      StateStep(c, w, es, j - 1);
      HeldStep(c, State(c, w, es, j - 1), es[j - 1]);
    }
  }

  /** The two halves together, from the interruption on. */
  lemma InterruptedStoreIsHeld(c: Config, w: World, es: seq<Event>, i: nat, j: nat)
    requires Init(w) && Runs(c, w, es) && i < j <= |es|
    requires Interrupts(c, State(c, w, es, i), es[i])
    requires forall k | i < k < j :: !Reattests(State(c, w, es, k), es[k])
    ensures SameAdmissions(State(c, w, es, i + 1), State(c, w, es, j))
    ensures forall k | i < k < j && es[k].CheckBypass? :: State(c, w, es, k + 1).section.None?
  {
    hide Inv, Enabled, Reattests, Stale;
    ReachableInv(c, w, es, i);
    StateStep(c, w, es, i);
    InterruptionLeavesStale(c, State(c, w, es, i), es[i]);
    HeldUntilReattested(c, w, es, i + 1, j);
  }

  /******* A store touched only by completed transactions is never held *******/

  function Restrict(approvals: map<Gate, ApprovalFile>, gates: set<Gate>): map<Gate, ApprovalFile> {
    map g | g in approvals && g in gates :: approvals[g]
  }

  /** The attestation describes the approvals at the current generation. */
  ghost predicate Fresh(c: Config, f: Files) {
    c.gates <= f.approvals.Keys && AttestationCurrent(c, f, Restrict(f.approvals, c.gates))
  }

  ghost predicate Agrees(f: Files, seen: map<Gate, ApprovalFile>) {
    forall g | g in seen :: g in f.approvals && f.approvals[g] == seen[g]
  }

  ghost predicate Clean(c: Config, w: World) {
    if w.section.None? then Fresh(c, w.files) else
      var ph := w.section.value.phase;
      && (ph.Reading? ==> Agrees(w.files, ph.seen))
      && (if ph.Installing? then c.gates - ph.pending <= w.files.approvals.Keys
          else if AfterAdvance(ph) then c.gates <= w.files.approvals.Keys
          else Fresh(c, w.files))
  }

  lemma CompleteReading(c: Config, f: Files, ph: Phase)
    requires Complete(c, ph) && !ph.task.Survey? && Agrees(f, ph.seen)
    ensures ph.seen == Restrict(f.approvals, c.gates)
  {
  }

  /** Publishing an attestation over an undisturbed reading makes the store fresh. */
  lemma AttestationRefreshes(c: Config, w: World, p: Pid)
    requires Inv(c, w) && Enabled(c, w, PublishAttestation(p)) && Agrees(w.files, w.section.value.phase.seen)
    ensures Fresh(c, Do(c, w, PublishAttestation(p)).files)
  {
    var ph := w.section.value.phase;
    CompleteReading(c, w.files, ph);
    assert c.gates == ph.seen.Keys;
  }

  lemma CleanStep(c: Config, w: World, e: Event)
    requires Inv(c, w) && Clean(c, w) && Enabled(c, w, e) && !e.Rogue? && !Interrupts(c, w, e)
    ensures Clean(c, Do(c, w, e))
    ensures e.CheckBypass? ==> AttestationCurrent(c, w.files, w.section.value.phase.seen)
  {
    hide Inv, Clean, Interrupts, AttestationCurrent;
    if e.PublishAttestation? {
      CleanAttestation(c, w, e.p);
    } else if e.CheckBypass? {
      CleanCheck(c, w, e.p, e.now);
    } else if e.AdvanceForWrite? {
      CleanAdvance(c, w, e.p);
    } else if e.Install? {
      CleanInstall(c, w, e.p, e.gate);
    } else if e.AdvanceForAdmission? || e.Stage? || e.StageMember? || e.PublishCommit? || e.Spend? || e.ApplyEffect? {
      CleanAdmission(c, w, e);
    } else {
      CleanQuiet(c, w, e);
    }
  }

  lemma CleanAttestation(c: Config, w: World, p: Pid)
    requires Inv(c, w) && Clean(c, w) && Enabled(c, w, PublishAttestation(p))
    ensures Clean(c, Do(c, w, PublishAttestation(p)))
  {
    hide Core, Fresh, StoreDigest;
    AttestationRefreshes(c, w, p);
  }

  lemma CleanCheck(c: Config, w: World, p: Pid, now: int)
    requires Clean(c, w) && Enabled(c, w, CheckBypass(p, now))
    ensures Clean(c, Do(c, w, CheckBypass(p, now)))
    ensures AttestationCurrent(c, w.files, w.section.value.phase.seen)
  {
    CompleteReading(c, w.files, w.section.value.phase);
  }

  lemma CleanAdvance(c: Config, w: World, p: Pid)
    requires Clean(c, w) && Enabled(c, w, AdvanceForWrite(p))
    ensures Clean(c, Do(c, w, AdvanceForWrite(p)))
  {
    var ph := w.section.value.phase;
    assert forall g | g in c.gates - ph.task.payloads.Keys :: g in ph.seen && g in w.files.approvals;
  }

  lemma CleanInstall(c: Config, w: World, p: Pid, g: Gate)
    requires Inv(c, w) && Clean(c, w) && Enabled(c, w, Install(p, g))
    ensures Clean(c, Do(c, w, Install(p, g)))
  {
    var ph, after := w.section.value.phase, Do(c, w, Install(p, g)).files.approvals;
    assert after.Keys == w.files.approvals.Keys + {g};
    assert c.gates - (ph.pending - {g}) <= (c.gates - ph.pending) + {g} <= after.Keys;
  }

  /** Steps that write no file. */
  lemma CleanQuiet(c: Config, w: World, e: Event)
    requires Clean(c, w) && Enabled(c, w, e) && !Interrupts(c, w, e)
    requires e.Acquire? || e.Read? || e.Prepare? || e.Load? || e.Confirm? || e.Crash? || e.Reboot?
    ensures Clean(c, Do(c, w, e))
  {
    hide Fresh;
  }

  /** Steps of an admission or a consumption that write one. */
  lemma CleanAdmission(c: Config, w: World, e: Event)
    requires Clean(c, w) && Enabled(c, w, e) && !Interrupts(c, w, e)
    requires e.AdvanceForAdmission? || e.Stage? || e.StageMember? || e.PublishCommit? || e.Spend? || e.ApplyEffect?
    ensures Clean(c, Do(c, w, e))
  {
    hide StoreDigest, TakeSnapshot, RecordOf;
  }

  lemma FreshIsClean(c: Config, w: World)
    requires w.section.None? && Fresh(c, w.files)
    ensures Clean(c, w)
  {
  }

  /**
   The converse. From a fresh store with the lock free, if no rogue write happens and no
   transaction is interrupted after its advance, no check ever reports a bypassing writer.
   */
  lemma {:induction false} CleanStoreNeverHeld(c: Config, w: World, es: seq<Event>, i: nat, j: nat)
    requires Init(w) && Runs(c, w, es) && i <= j <= |es|
    requires State(c, w, es, i).section.None? && Fresh(c, State(c, w, es, i).files)
    requires forall k | i <= k < j :: !es[k].Rogue? && !Interrupts(c, State(c, w, es, k), es[k])
    ensures Clean(c, State(c, w, es, j))
    ensures forall k | i <= k < j && es[k].CheckBypass? ::
      var a := State(c, w, es, k); Enabled(c, a, es[k]) && AttestationCurrent(c, a.files, a.section.value.phase.seen)
    decreases j - i
  {
    hide Inv, Do, Interrupts, AttestationCurrent, Clean, Fresh;
    if i == j {
      FreshIsClean(c, State(c, w, es, i));
    } else {
      CleanStoreNeverHeld(c, w, es, i, j - 1);
      ReachableInv(c, w, es, j - 1);
      StateStep(c, w, es, j - 1);
      CleanStep(c, State(c, w, es, j - 1), es[j - 1]);
    }
  }

  /******* A write that skipped the lock is caught *******/

  /** Not fresh; readings in progress agree with the files; past an advance, stale as well. */
  ghost predicate Bypassed(c: Config, w: World) {
    && !Fresh(c, w.files)
    && (w.section.Some? ==>
          var ph := w.section.value.phase;
          && (ph.Installing? || ph.Loading? || (ph.Reading? && HeldTask(ph.task) && Agrees(w.files, ph.seen)))
          && (AfterAdvance(ph) ==> Stale(w.files)))
  }

  lemma StaleIsNotFresh(c: Config, f: Files)
    requires Stale(f)
    ensures !Fresh(c, f)
  {
  }

  lemma BypassedCheck(c: Config, w: World, p: Pid, now: int)
    requires Bypassed(c, w) && Enabled(c, w, CheckBypass(p, now))
    ensures Do(c, w, CheckBypass(p, now)) == Leave(w)
  {
    CompleteReading(c, w.files, w.section.value.phase);
  }

  lemma BypassedAdvance(c: Config, w: World, p: Pid)
    requires Inv(c, w) && Bypassed(c, w) && Enabled(c, w, AdvanceForWrite(p))
    ensures Bypassed(c, Do(c, w, AdvanceForWrite(p))) && SameAdmissions(w, Do(c, w, AdvanceForWrite(p)))
  {
    hide HistoryOk, EffectsOk, CommitComplete, PhaseOk, Fresh;
    assert w.files.attestation.Some? ==> w.files.attestation.value.generation <= w.files.generation;
    hide Core;
    var w' := Do(c, w, AdvanceForWrite(p));
    if w'.section.Some? { StaleIsNotFresh(c, w'.files); }
  }

  lemma BypassedInstall(c: Config, w: World, p: Pid, g: Gate)
    requires Bypassed(c, w) && Enabled(c, w, Install(p, g))
    ensures Bypassed(c, Do(c, w, Install(p, g))) && SameAdmissions(w, Do(c, w, Install(p, g)))
  {
    hide Fresh;
    StaleIsNotFresh(c, Do(c, w, Install(p, g)).files);
  }

  lemma BypassedQuiet(c: Config, w: World, e: Event)
    requires Bypassed(c, w) && Enabled(c, w, e) && !e.Rogue? && !Reattests(w, e)
    requires !e.CheckBypass? && !e.AdvanceForWrite? && !e.Install?
    ensures Bypassed(c, Do(c, w, e)) && SameAdmissions(w, Do(c, w, e))
  {
    hide Fresh;
  }

  lemma BypassedStep(c: Config, w: World, e: Event)
    requires Inv(c, w) && Bypassed(c, w) && Enabled(c, w, e) && !e.Rogue? && !Reattests(w, e)
    ensures Bypassed(c, Do(c, w, e)) && SameAdmissions(w, Do(c, w, e))
    ensures e.CheckBypass? ==> Do(c, w, e).section.None?
  {
    hide Inv, Fresh;
    if e.CheckBypass? {
      BypassedCheck(c, w, e.p, e.now);
    } else if e.AdvanceForWrite? {
      BypassedAdvance(c, w, e.p);
    } else if e.Install? {
      BypassedInstall(c, w, e.p, e.gate);
    } else {
      BypassedQuiet(c, w, e);
    }
  }

  /**
   What the attestation is for. Once the approvals are not those attested, whoever changed them and
   at whatever generation, every bypass check refuses and nothing is admitted, spent or applied
   until an enrolment or a writer completes.
   */
  lemma {:induction false} BypassIsCaught(c: Config, w: World, es: seq<Event>, i: nat, j: nat)
    requires Init(w) && Runs(c, w, es) && i <= j <= |es|
    requires State(c, w, es, i).section.None? && !Fresh(c, State(c, w, es, i).files)
    requires forall k | i <= k < j :: !es[k].Rogue? && !Reattests(State(c, w, es, k), es[k])
    ensures Bypassed(c, State(c, w, es, j)) && SameAdmissions(State(c, w, es, i), State(c, w, es, j))
    ensures forall k | i <= k < j && es[k].CheckBypass? :: State(c, w, es, k + 1).section.None?
    decreases j - i
  {
    hide Inv, Enabled, Do, Reattests, Fresh;
    if i < j {
      BypassIsCaught(c, w, es, i, j - 1);
      ReachableInv(c, w, es, j - 1);
      StateStep(c, w, es, j - 1);
      BypassedStep(c, State(c, w, es, j - 1), es[j - 1]);
    }
  }

  /**
   What it does not catch. A rogue write that lands after an admission has published its commit is
   attested by that admission itself: with one gate, three steps end in a store that is fresh and
   holds the rogue approval. A consumer that reads it is still refused, by ConsumptionBound.
   */
  lemma LateRogueIsAttested(c: Config, w: World, p: Pid, g: Gate, file: ApprovalFile)
    requires c.gates == {g} && w.section == Some(Section(p, Reading(Attest(ByAdmission, w.files.generation), map[])))
    ensures Enabled(c, w, Rogue(g, Some(file)))
    ensures var w1 := Do(c, w, Rogue(g, Some(file)));
      && Enabled(c, w1, Read(p, g))
      && var w2 := Do(c, w1, Read(p, g));
      && Enabled(c, w2, PublishAttestation(p))
      && var f := Do(c, w2, PublishAttestation(p)).files;
      && f.approvals == w.files.approvals[g := file] && Fresh(c, f)
  {
    hide Digests;
    var w1 := Do(c, w, Rogue(g, Some(file)));
    var w2 := Do(c, w1, Read(p, g));
    var seen := w2.section.value.phase.seen;
    assert seen == map[g := file] == Restrict(w2.files.approvals, c.gates);
  }

  /******* The ledger, the commit and the staging area *******/

  /**
   In every reachable state: consumed <= published <= generation; staged generations do not
   exceed the store generation; the visible commit's bundle is complete and matches its
   manifest; a staged generation above the commit was never committed; and creating the staging
   directory never collides.
   */
  lemma StoreOrdered(c: Config, w: World, es: seq<Event>, i: nat)
    requires Init(w) && Runs(c, w, es) && i <= |es|
    ensures var f := State(c, w, es, i).files;
      && f.consumed <= Published(f) <= f.generation
      && (forall g | g in f.staged :: g <= f.generation)
      && CommitComplete(f)
      && (f.commit.Some? ==> BundleMatches(f, f.commit.value))
      && (forall g | g in f.staged && g > Published(f) :: g !in State(c, w, es, i).committed)
    ensures i < |es| && es[i].Stage? ==>
      var a := State(c, w, es, i);
      && Enabled(c, a, es[i])
      && a.section.value.phase.task.generation !in a.files.staged
  {
    hide Enabled, Do;
    ReachableInv(c, w, es, i);
    if i < |es| && es[i].Stage? {
      StateStep(c, w, es, i);
      StageKeeps(c, State(c, w, es, i), es[i].p);
    }
  }
}
