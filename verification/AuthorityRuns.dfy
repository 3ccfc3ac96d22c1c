/** The promises of the authority protocol, over every run and every interleaving. */
module AuthorityRuns {
  import opened Basics
  import opened AuthorityProtocol
  import opened AuthoritySafety

  /******* Runs by index *******/

  lemma {:induction false} RunsPrefix(c: Config, w: World, es: seq<Event>, i: nat)
    requires Runs(c, w, es) && i <= |es|
    ensures Runs(c, w, es[..i])
    decreases |es|
  {
    if i < |es| {
      RunsPrefix(c, w, es[..|es| - 1], i);
      assert es[..|es| - 1][..i] == es[..i];
    } else {
      assert es[..i] == es;
    }
  }

  /** The world before event `i` of the run. */
  ghost function State(c: Config, w: World, es: seq<Event>, i: nat): World
    requires Runs(c, w, es) && i <= |es|
  {
    RunsPrefix(c, w, es, i);
    After(c, w, es[..i])
  }

  lemma StateStep(c: Config, w: World, es: seq<Event>, i: nat)
    requires Runs(c, w, es) && i < |es|
    ensures Enabled(c, State(c, w, es, i), es[i])
    ensures State(c, w, es, i + 1) == Do(c, State(c, w, es, i), es[i])
  {
    RunsPrefix(c, w, es, i + 1);
    assert es[..i + 1][..i] == es[..i];
  }

  /** Every state of every run from an unenrolled store satisfies the invariant. */
  lemma {:induction false} ReachableInv(c: Config, w: World, es: seq<Event>, i: nat)
    requires Init(w) && Runs(c, w, es) && i <= |es|
    ensures Inv(c, State(c, w, es, i))
  {
    if i > 0 {
      ReachableInv(c, w, es, i - 1);
      StateStep(c, w, es, i - 1);
      InvStep(c, State(c, w, es, i - 1), es[i - 1]);
    }
  }

  /******* What only grows *******/

  /** No staging directory is withdrawn, and no member once written to one changes. */
  ghost predicate StagedKept(f: Files, g: Files) {
    forall n | n in f.staged :: n in g.staged
      && forall m | m in f.staged[n] :: m in g.staged[n] && g.staged[n][m] == f.staged[n][m]
  }

  ghost predicate Grows(a: World, b: World) {
    && a.files.generation <= b.files.generation
    && a.files.consumed <= b.files.consumed
    && a.committed <= b.committed
    && a.applied <= b.applied
    && (forall g | g in a.prepared :: g in b.prepared && b.prepared[g] == a.prepared[g])
    && (a.committed == b.committed ==> a.files.commit == b.files.commit)
    && StagedKept(a.files, b.files)
  }

  /** A step without a publish changes nothing but the section and the boot. */
  lemma QuietFrame(c: Config, w: World, e: Event)
    requires Enabled(c, w, e) && (Quiet(e) || e.Acquire? || e.Reboot?)
    ensures Do(c, w, e) == w.(section := Do(c, w, e).section, boot := Do(c, w, e).boot)
  {
  }

  /** The publishes of the writer and of enrolment, and rogue writes. */
  lemma WriterFrame(c: Config, w: World, e: Event)
    requires Enabled(c, w, e)
    requires e.Rogue? || e.AdvanceForWrite? || e.Install? || e.PublishAttestation?
    ensures var w' := Do(c, w, e);
      w' == w.(section := w'.section, files := w.files.(
        generation := w'.files.generation, approvals := w'.files.approvals, attestation := w'.files.attestation))
    ensures w.files.generation <= Do(c, w, e).files.generation
  {
  }

  lemma CommitGrows(c: Config, w: World, p: Pid, now: int)
    requires Inv(c, w) && Enabled(c, w, PublishCommit(p, now))
    ensures Grows(w, Do(c, w, PublishCommit(p, now)))
  {
    assert w.section.value.phase.generation !in w.prepared;
  }

  /** The steps of an admission or a consumption that touch one file or append one effect. */
  lemma AdvanceGrows(c: Config, w: World, p: Pid)
    requires Enabled(c, w, AdvanceForAdmission(p))
    ensures Grows(w, Do(c, w, AdvanceForAdmission(p)))
  {
  }

  lemma StagedGrows(w: World, w': World, g: nat, dir: map<Member, Bytes>)
    requires w'.files == w.files.(staged := w.files.staged[g := dir])
    requires g in w.files.staged ==> forall m | m in w.files.staged[g] :: m in dir && dir[m] == w.files.staged[g][m]
    requires w'.committed == w.committed && w'.prepared == w.prepared && w'.applied == w.applied
    ensures Grows(w, w')
  {
  }

  lemma StageGrows(c: Config, w: World, p: Pid)
    requires Inv(c, w) && Enabled(c, w, Stage(p))
    ensures Grows(w, Do(c, w, Stage(p)))
  {
    hide Core, TakeSnapshot, Grows;
    var w', generation := Do(c, w, Stage(p)), w.section.value.phase.task.generation;
    if w'.section.None? {
      FrameGrows(w, w');
    } else {
      StagedGrows(w, w', generation, map[]);
    }
  }

  lemma StageMemberGrows(c: Config, w: World, p: Pid, m: Member)
    requires Inv(c, w) && Enabled(c, w, StageMember(p, m))
    ensures Grows(w, Do(c, w, StageMember(p, m)))
  {
    hide Core, Grows;
    var w', ph := Do(c, w, StageMember(p, m)), w.section.value.phase;
    assert m !in w.files.staged[ph.generation];
    if w'.section.None? {
      FrameGrows(w, w');
    } else {
      StagedGrows(w, w', ph.generation, w.files.staged[ph.generation][m := ph.proposal.bundle[m]]);
    }
  }

  lemma SpendGrows(c: Config, w: World, p: Pid)
    requires Inv(c, w) && Enabled(c, w, Spend(p))
    ensures Grows(w, Do(c, w, Spend(p)))
  {
    hide Core;
  }

  lemma EffectGrows(c: Config, w: World, p: Pid)
    requires Enabled(c, w, ApplyEffect(p))
    ensures Grows(w, Do(c, w, ApplyEffect(p)))
  {
    assert w.applied <= Do(c, w, ApplyEffect(p)).applied;
  }

  /** Every other step writes at most the generation, the approvals and the attestation. */
  lemma UnstagedGrows(c: Config, w: World, e: Event)
    requires Enabled(c, w, e)
    requires Quiet(e) || e.Acquire? || e.Reboot? || e.Rogue? || e.AdvanceForWrite? || e.Install? || e.PublishAttestation?
    ensures Grows(w, Do(c, w, e))
  {
    hide Enabled, Do, Grows;
    if Quiet(e) || e.Acquire? || e.Reboot? { QuietFrame(c, w, e); } else { WriterFrame(c, w, e); }
    FrameGrows(w, Do(c, w, e));
  }

  lemma FrameGrows(w: World, w': World)
    requires w'.files == w.files.(
      generation := w'.files.generation, approvals := w'.files.approvals, attestation := w'.files.attestation)
    requires w.files.generation <= w'.files.generation
    requires w'.committed == w.committed && w'.prepared == w.prepared && w'.applied == w.applied
    ensures Grows(w, w')
  {
  }

  lemma StepGrows(c: Config, w: World, e: Event)
    requires Inv(c, w) && Enabled(c, w, e)
    ensures Grows(w, Do(c, w, e))
  {
    hide Inv, Enabled, Do, Grows;
    match e {
      case AdvanceForAdmission(p) => AdvanceGrows(c, w, p);
      case Stage(p) => StageGrows(c, w, p);
      case StageMember(p, m) => StageMemberGrows(c, w, p, m);
      case Spend(p) => SpendGrows(c, w, p);
      case ApplyEffect(p) => EffectGrows(c, w, p);
      case PublishCommit(p, now) => CommitGrows(c, w, p, now);
      case _ => UnstagedGrows(c, w, e);
    }
  }

  lemma {:induction false} RunGrows(c: Config, w: World, es: seq<Event>, i: nat, j: nat)
    requires Init(w) && Runs(c, w, es) && i <= j <= |es|
    ensures Grows(State(c, w, es, i), State(c, w, es, j))
    decreases j - i
  {
    hide Inv, Do;
    if i < j {
      RunGrows(c, w, es, i, j - 1);
      ReachableInv(c, w, es, j - 1);
      StateStep(c, w, es, j - 1);
      StepGrows(c, State(c, w, es, j - 1), es[j - 1]);
    }
  }

  /******* Each admission is spent at most once, and its effect applied at most once *******/

  /** The generation of the admission that a spending or applying section acts on. */
  ghost function ActsOn(w: World): nat {
    if w.section.Some? && w.section.value.phase.Verified? then w.section.value.phase.record.generation
    else if w.section.Some? && w.section.value.phase.Spent? then w.section.value.phase.record.generation
    else 0
  }

  lemma SpendRaises(c: Config, w: World, p: Pid)
    requires Inv(c, w) && Enabled(c, w, Spend(p))
    ensures w.files.consumed < ActsOn(w) == Do(c, w, Spend(p)).files.consumed
  {
  }

  lemma ApplyExtends(c: Config, w: World, p: Pid)
    requires Inv(c, w) && Enabled(c, w, ApplyEffect(p))
    ensures var w' := Do(c, w, ApplyEffect(p));
      && |w'.applied| == |w.applied| + 1
      && w'.applied[|w.applied|].generation == ActsOn(w) == w.files.consumed
      && (forall i | 0 <= i < |w.applied| :: w.applied[i].generation < ActsOn(w))
  {
  }

  /**
   At most once. Of any two effects in any run, the later acts on a strictly newer admission;
   the ledger already names the admission when its effect is applied; and every ledger write
   strictly raises it.
   */
  lemma EffectsAtMostOnce(c: Config, w: World, es: seq<Event>, i: nat, j: nat)
    requires Init(w) && Runs(c, w, es) && i < j < |es|
    ensures es[i].ApplyEffect? ==> ActsOn(State(c, w, es, i)) == State(c, w, es, i).files.consumed
    ensures es[i].ApplyEffect? && es[j].ApplyEffect? ==> ActsOn(State(c, w, es, i)) < ActsOn(State(c, w, es, j))
    ensures es[i].Spend? && es[j].Spend? ==> ActsOn(State(c, w, es, i)) < ActsOn(State(c, w, es, j))
  {
    hide Inv, Enabled, Do, ActsOn;
    var a, b := State(c, w, es, i), State(c, w, es, j);
    ReachableInv(c, w, es, i);
    ReachableInv(c, w, es, j);
    StateStep(c, w, es, i);
    StateStep(c, w, es, j);
    RunGrows(c, w, es, i + 1, j);
    if es[i].ApplyEffect? {
      ApplyExtends(c, a, es[i].p);
      if es[j].ApplyEffect? {
        ApplyExtends(c, b, es[j].p);
        assert b.applied[|a.applied|] == State(c, w, es, i + 1).applied[|a.applied|];
      }
    }
    if es[i].Spend? && es[j].Spend? {
      SpendRaises(c, a, es[i].p);
      SpendRaises(c, b, es[j].p);
    }
  }

  /******* Consumption is bound to its admission *******/

  /** The event moves the store generation forward from `w`. */
  ghost predicate Advances(w: World, e: Event) {
    (e.AdvanceForWrite? || e.AdvanceForAdmission?) && w.files.generation < MAX_GENERATION
  }

  /** At `w` the event `e` publishes a commit, rather than refusing a passed deadline. */
  ghost predicate Commits(c: Config, w: World, e: Event) {
    Enabled(c, w, e) && e.PublishCommit? && e.now < w.section.value.phase.proposal.deadline
  }

  lemma CommitPublishes(c: Config, w: World, e: Event)
    requires Inv(c, w) && Commits(c, w, e)
    ensures var w', ph := Do(c, w, e), w.section.value.phase;
      && w'.files.commit == Some(RecordOf(w, ph))
      && ph.generation == w.files.generation == w'.files.generation
      && w'.committed == w.committed + [ph.generation]
      && ph.generation in w'.prepared && w'.prepared[ph.generation] == ph.validated
  {
  }

  lemma SpendBound(c: Config, w: World, p: Pid)
    requires Inv(c, w) && Enabled(c, w, Spend(p))
    ensures var Verified(record, snapshot) := w.section.value.phase;
      && w.files.commit == Some(record) && record.generation == w.files.generation
      && record.generation in w.prepared
      && snapshot.approvals == w.prepared[record.generation].approvals
      && snapshot.receipts == w.prepared[record.generation].receipts
  {
  }

  lemma AdvanceMoves(c: Config, w: World, e: Event)
    requires Enabled(c, w, e) && Advances(w, e)
    ensures Do(c, w, e).files.generation == w.files.generation + 1
  {
  }

  /** Between two states at the same generation no event advanced it. */
  lemma NoAdvanceBetween(c: Config, w: World, es: seq<Event>, i: nat, k: nat, j: nat)
    requires Init(w) && Runs(c, w, es) && i <= k < j <= |es|
    requires State(c, w, es, i).files.generation == State(c, w, es, j).files.generation
    ensures State(c, w, es, k).files.generation == State(c, w, es, j).files.generation
    ensures !Advances(State(c, w, es, k), es[k])
  {
    hide Inv, Enabled, Do, Advances;
    RunGrows(c, w, es, i, k);
    RunGrows(c, w, es, k, j);
    RunGrows(c, w, es, k + 1, j);
    StateStep(c, w, es, k);
    if Advances(State(c, w, es, k), es[k]) {
      AdvanceMoves(c, State(c, w, es, k), es[k]);
    }
  }

  /** Only a publishing commit appends to the committed generations, and it appends its own. */
  lemma CommittedOnlyByCommit(c: Config, w: World, e: Event)
    requires Enabled(c, w, e)
    ensures Do(c, w, e).committed == w.committed
      || (Commits(c, w, e) && Do(c, w, e).committed == w.committed + [w.section.value.phase.generation])
  {
  }

  /** Every committed generation of a run was published by an earlier event of it. */
  lemma {:induction false} CommittedBySomeEvent(c: Config, w: World, es: seq<Event>, j: nat, g: nat)
    returns (i: nat)
    requires Init(w) && Runs(c, w, es) && j <= |es| && g in State(c, w, es, j).committed
    ensures i < j && Commits(c, State(c, w, es, i), es[i])
    ensures State(c, w, es, i).section.value.phase.generation == g
  {
    hide Do, Enabled;
    StateStep(c, w, es, j - 1);
    CommittedOnlyByCommit(c, State(c, w, es, j - 1), es[j - 1]);
    if g in State(c, w, es, j - 1).committed {
      i := CommittedBySomeEvent(c, w, es, j - 1, g);
    } else {
      i := j - 1;
    }
  }

  /** Every spend of a run spends what an earlier event of the run published. */
  lemma SpendHasCommit(c: Config, w: World, es: seq<Event>, j: nat) returns (i: nat)
    requires Init(w) && Runs(c, w, es) && j < |es| && es[j].Spend?
    ensures i < j && Commits(c, State(c, w, es, i), es[i])
    ensures State(c, w, es, i).section.value.phase.generation == ActsOn(State(c, w, es, j))
  {
    ReachableInv(c, w, es, j);
    StateStep(c, w, es, j);
    SpendCommitted(c, State(c, w, es, j), es[j].p);
    i := CommittedBySomeEvent(c, w, es, j, ActsOn(State(c, w, es, j)));
  }

  lemma SpendCommitted(c: Config, w: World, p: Pid)
    requires Inv(c, w) && Enabled(c, w, Spend(p))
    ensures ActsOn(w) in w.committed
  {
  }

  /**
   The linearization promise, for every spend of every run. What is spent at `j` is exactly the
   record published by an earlier event `i`; no writer or admission advanced the store in between;
   and the approvals and receipts the consumer read are the ones the admission's validator was
   handed -- whatever the rogue writer did meanwhile.
   */
  lemma ConsumptionBound(c: Config, w: World, es: seq<Event>, j: nat) returns (i: nat)
    requires Init(w) && Runs(c, w, es) && j < |es| && es[j].Spend?
    ensures i < j && Commits(c, State(c, w, es, i), es[i]) && Enabled(c, State(c, w, es, j), es[j])
    ensures var a, b := State(c, w, es, i), State(c, w, es, j);
      && b.section.value.phase.record == RecordOf(a, a.section.value.phase)
      && b.section.value.phase.snapshot.approvals == a.section.value.phase.validated.approvals
      && b.section.value.phase.snapshot.receipts == a.section.value.phase.validated.receipts
    ensures forall k | i < k < j :: !Advances(State(c, w, es, k), es[k])
  {
    i := SpendHasCommit(c, w, es, j);
    SpendMatchesCommit(c, w, es, i, j);
  }

  /** A spend and the commit of the generation it spends. */
  lemma SpendMatchesCommit(c: Config, w: World, es: seq<Event>, i: nat, j: nat)
    requires Init(w) && Runs(c, w, es) && i < j < |es|
    requires Commits(c, State(c, w, es, i), es[i])
    requires es[j].Spend? && ActsOn(State(c, w, es, j)) == State(c, w, es, i).section.value.phase.generation
    ensures var a, b := State(c, w, es, i), State(c, w, es, j);
      && Enabled(c, b, es[j])
      && b.section.value.phase.record == RecordOf(a, a.section.value.phase)
      && b.section.value.phase.snapshot.approvals == a.section.value.phase.validated.approvals
      && b.section.value.phase.snapshot.receipts == a.section.value.phase.validated.receipts
    ensures forall k | i < k < j :: !Advances(State(c, w, es, k), es[k])
  {
    hide Inv, Do, Advances;
    var a, b := State(c, w, es, i), State(c, w, es, j);
    ReachableInv(c, w, es, i);
    ReachableInv(c, w, es, j);
    StateStep(c, w, es, i);
    StateStep(c, w, es, j);
    RunGrows(c, w, es, i + 1, j);
    ReachableInv(c, w, es, i + 1);
    CommitPublishes(c, a, es[i]);
    SpendBound(c, b, es[j].p);
    SameCommit(c, State(c, w, es, i + 1), b);
    forall k | i < k < j
      ensures !Advances(State(c, w, es, k), es[k])
    {
      NoAdvanceBetween(c, w, es, i + 1, k, j);
    }
  }

  /** A commit cannot be replaced without its generation growing. */
  lemma SameCommit(c: Config, a: World, b: World)
    requires Inv(c, a) && Inv(c, b) && Grows(a, b)
    requires a.files.commit.Some? && Published(a.files) == Published(b.files)
    ensures a.files.commit == b.files.commit
  {
    hide Inv, Increasing;
    LastCommitted(c, a);
    LastCommitted(c, b);
    SamePrefix(a.committed, b.committed);
  }

  lemma LastCommitted(c: Config, w: World)
    requires Inv(c, w)
    ensures Increasing(w.committed)
    ensures w.files.commit.Some? ==> w.committed != [] && w.committed[|w.committed| - 1] == Published(w.files)
    ensures w.files.commit.None? ==> w.committed == []
  {
    hide EffectsOk, PhaseOk, CommitComplete, CommitBound, Increasing;
    if w.committed != [] {
      assert 0 < w.committed[0] <= Published(w.files);
    }
  }

  lemma SamePrefix(a: seq<nat>, b: seq<nat>)
    requires a != [] && a <= b && Increasing(b) && a[|a| - 1] == b[|b| - 1]
    ensures a == b
  {
    assert b[|a| - 1] == a[|a| - 1];
  }
}
