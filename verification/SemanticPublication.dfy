/**
 Activation of semantic input snapshots. An apply call, under the publication lock, creates a
 snapshot directory, a plan file and a manifest file, then renames the active record into place.
 Any step may raise, leaving a torn file behind, and the process may die at any step; every file
 system change below is a method of its own that keeps the store valid.

 SHA-256 over canonical JSON is a free constructor of what is hashed.
 */
module SemanticPublication {
  import opened Basics

  /******* Records *******/

  datatype Logical =
    MacroReport | SentimentReport | OnchainReport | FredCache | CrossAssetCache | CryptoGlobalCache

  datatype Folder = Reports | Memory | Macro

  const LOGICALS: seq<Logical> :=
    [MacroReport, SentimentReport, OnchainReport, FredCache, CrossAssetCache, CryptoGlobalCache]
  const ALL_FOLDERS: set<Folder> := {Reports, Memory, Macro}
  const CLASSIFICATION: string := "READ_ONLY_EXTERNAL_INPUT"
  const MAX_CLOCK_SKEW: int := 30_000_000
  const MINUTE: int := 60_000_000

  function Home(l: Logical): Folder {
    match l
    case MacroReport | SentimentReport | OnchainReport => Reports
    case FredCache | CrossAssetCache | CryptoGlobalCache => Macro
  }

  datatype InputDigest = Sha256OfInput(raw: Bytes)

  /** Times are microseconds. `context` is every other field; `short` the plan digest's first 16 digits. */
  datatype Plan = Plan(
    version: string, generated: int, validity: int, sources: map<Logical, InputDigest>,
    context: string, short: string)

  datatype PlanDigest = Sha256OfPlan(plan: Plan)

  datatype Manifest = Manifest(
    version: string, generated: int, validUntil: int, root: VersionName, planDigest: PlanDigest,
    planPath: FileName, files: map<Logical, InputDigest>, context: string)

  datatype ManifestDigest = Sha256OfManifest(manifest: Manifest)

  datatype VersionName = VersionName(version: string, short: string)

  datatype FileName =
    | PlanName(version: string, short: string)
    | ManifestName(version: string, short: string)
    | TempName(token: string)

  datatype Active = Active(
    schema: int, classification: string, generated: int, version: string,
    manifestPath: FileName, manifestSha256: ManifestDigest, inputDirectory: VersionName,
    planDigest: PlanDigest, planPath: FileName, planSha256: PlanDigest)

  datatype Content = PlanJson(plan: Plan) | ManifestJson(manifest: Manifest) | ActiveJson(active: Active) | Torn

  /** A snapshot directory; a file whose write was torn holds None. */
  datatype Snapshot = Snapshot(folders: set<Folder>, files: map<Logical, Option<Bytes>>)

  function InputDirectory(p: Plan): VersionName { VersionName(p.version, p.short) }

  function PlanPath(p: Plan): FileName { PlanName(p.version, p.short) }

  function ManifestPath(p: Plan): FileName { ManifestName(p.version, p.short) }

  function ManifestOf(p: Plan): Manifest {
    Manifest(p.version, p.generated, p.generated + p.validity * MINUTE, InputDirectory(p), Sha256OfPlan(p),
             PlanPath(p), p.sources, p.context)
  }

  function ActiveOf(p: Plan): Active {
    Active(1, CLASSIFICATION, p.generated, p.version, ManifestPath(p), Sha256OfManifest(ManifestOf(p)),
           InputDirectory(p), Sha256OfPlan(p), PlanPath(p), Sha256OfPlan(p))
  }

  /******* Decisions *******/

  predicate ClockAllows(p: Plan, now: int) {
    p.generated <= now + MAX_CLOCK_SKEW && now < p.generated + p.validity * MINUTE
  }

  datatype Decision = Fresh | Idempotent | Refuse

  function ActivationDecision(current: Option<Active>, expected: Active): Decision {
    match current
    case None => Fresh
    case Some(a) =>
      if a.schema != 1 || a.classification != CLASSIFICATION then Refuse
      else if expected.generated == a.generated && expected.version == a.version
        && expected.planDigest == a.planDigest then
        if a == expected then Idempotent else Refuse
      else if expected.generated <= a.generated || expected.version == a.version then Refuse
      else Fresh
  }

  /******* The store invariant *******/

  ghost predicate Extends<K, V>(m: map<K, V>, n: map<K, V>) {
    forall k | k in m :: k in n && n[k] == m[k]
  }

  ghost predicate ExtendsBut<K, V>(m: map<K, V>, n: map<K, V>, but: K) {
    forall k | k in m && k != but :: k in n && n[k] == m[k]
  }

  predicate Holding(s: Snapshot, sources: map<Logical, InputDigest>) {
    && s.folders == ALL_FOLDERS && s.files.Keys == sources.Keys
    && forall l | l in s.files :: s.files[l].Some? && Sha256OfInput(s.files[l].value) == sources[l]
  }

  /** Everything a plan's active record names is present with the recorded content. */
  ghost predicate Named(authority: map<FileName, Content>, inputs: map<VersionName, Snapshot>, p: Plan) {
    var a := ActiveOf(p);
    && a.planPath in authority && authority[a.planPath] == PlanJson(p)
    && a.manifestPath in authority && authority[a.manifestPath] == ManifestJson(ManifestOf(p))
    && a.inputDirectory in inputs && Holding(inputs[a.inputDirectory], p.sources)
  }

  /** Each activation was generated later than the one it replaced and has another version. */
  predicate Monotone(history: seq<Plan>) {
    forall i | 0 < i < |history| ::
      history[i - 1].generated < history[i].generated && history[i - 1].version != history[i].version
  }

  /** Files sit in folders that exist. */
  predicate Tree(s: Snapshot) {
    && (forall l | l in s.files :: Home(l) in s.folders)
    && (Macro in s.folders ==> Memory in s.folders)
  }

  /** Generation times rise over the whole history, so no plan is activated twice. */
  lemma {:induction false} HistoryRises(history: seq<Plan>, i: nat, j: nat)
    requires Monotone(history) && i < j < |history|
    ensures history[i].generated < history[j].generated
    decreases j
  {
    if i < j - 1 { HistoryRises(history, i, j - 1); }
  }

  /** Against an active record this program wrote, the decision is by time, version and plan alone. */
  lemma DecisionMeaning(last: Plan, p: Plan)
    ensures ActivationDecision(Some(ActiveOf(last)), ActiveOf(p)) ==
      if p == last then Idempotent
      else if last.generated < p.generated && last.version != p.version then Fresh
      else Refuse
  {
  }

  /******* Failure injection *******/

  datatype Effect = Nothing | Part | Whole

  datatype Fate = Goes | Raises(effect: Effect) | Dies(effect: Effect)

  datatype Exit = Continues | Raised | Died

  datatype Point =
    | Recheck(k: nat) | MakeVersion | MakeFolder(folder: Folder) | WriteInput(input: Logical) | Seal
    | WritePlan | WriteManifest | WriteTemp | RenameActive | SyncDirectories
    | UnlinkTemp | UnlinkManifest | UnlinkPlan | UnlinkInput(unlinked: Logical)
    | RemoveFolder(removed: Folder) | RemoveVersion

  function ExitOf(f: Fate): Exit {
    match f case Goes => Continues case Raises(_) => Raised case Dies(_) => Died
  }

  function EffectOf(f: Fate): Effect {
    if f.Goes? then Whole else f.effect
  }

  /** A failing creation leaves nothing behind that the flags do not record. */
  ghost predicate CleanCreation(fates: Point -> Fate) {
    && fates(MakeVersion) in {Goes, Raises(Nothing)}
    && fates(WritePlan) in {Goes, Raises(Nothing)} && fates(WriteManifest) in {Goes, Raises(Nothing)}
  }

  /** No removal fails. */
  ghost predicate CleanRemoval(fates: Point -> Fate) {
    && fates(UnlinkTemp).Goes? && fates(UnlinkManifest).Goes? && fates(UnlinkPlan).Goes?
    && (forall l :: fates(UnlinkInput(l)).Goes?)
    && (forall d :: fates(RemoveFolder(d)).Goes?) && fates(RemoveVersion).Goes?
  }

  /** The authority files an interrupted publication had flagged as created. */
  datatype Created = Created(plan: bool, manifest: bool, temp: bool)

  datatype Outcome = Published | AlreadyActive | Refused | Failed | Killed

  function Ended(exit: Exit): Outcome {
    if exit == Raised then Failed else Killed
  }

  class SemanticStore {
    var authority: map<FileName, Content>
    var inputs: map<VersionName, Snapshot>
    var active: Option<Active>
    ghost var history: seq<Plan>

    /** The active record is the last activation; everything any activation named is still there. */
    ghost predicate Valid() reads this {
      && Monotone(history)
      && active == (if history == [] then None else Some(ActiveOf(history[|history| - 1])))
      && forall p | p in history :: Named(authority, inputs, p)
    }

    /** The store is valid and no activation names this snapshot directory. */
    ghost predicate Unnamed(v: VersionName) reads this {
      Valid() && forall p | p in history :: InputDirectory(p) != v
    }

    constructor ()
      ensures Valid() && history == [] && authority == map[] && inputs == map[]
    {
      authority, inputs, active, history := map[], map[], None, [];
    }

    /** Exclusive creation of an authority file. */
    method WriteAuthorityFile(name: FileName, content: Content, fate: Fate) returns (exit: Exit)
      requires Valid()
      modifies this`authority
      ensures Valid() && Extends(old(authority), authority)
      ensures authority.Keys <= old(authority).Keys + {name}
      ensures exit == Continues <==> fate.Goes? && name !in old(authority)
      ensures exit == Continues ==> authority == old(authority)[name := content]
      ensures exit == Raised && (name in old(authority) || fate.effect == Nothing) ==> authority == old(authority)
    {
      hide Holding, Monotone;
      if name in authority {
        return Raised;
      }
      var effect := EffectOf(fate);
      if effect != Nothing {
        authority := authority[name := if effect == Part then Torn else content];
      }
      forall p | p in history
        ensures Named(authority, inputs, p)
      {
        NamedExtends(old(authority), inputs, authority, inputs, p);
      }
      return ExitOf(fate);
    }

    /** Removal of a file, when this call flagged it as created: `kept` is what must survive. */
    method UnlinkIf(flagged: bool, name: FileName, fate: Fate, ghost kept: map<FileName, Content>) returns (exit: Exit)
      requires Valid() && Extends(kept, authority) && (flagged ==> name !in kept)
      requires forall p | p in history :: Named(kept, inputs, p)
      modifies this`authority
      ensures Valid() && Extends(kept, authority) && authority.Keys <= old(authority).Keys
      ensures fate.Goes? ==> exit == Continues && authority == old(authority) - OnlyIf(flagged, name)
      ensures exit != Raised
    {
      hide Holding, Monotone;
      if flagged && EffectOf(fate) == Whole {
        authority := authority - {name};
      }
      forall p | p in history
        ensures Named(authority, inputs, p)
      {
        NamedExtends(kept, inputs, authority, inputs, p);
      }
      return if flagged && fate.Dies? then Died else Continues;
    }

    /** Any change inside one snapshot directory that no activation names. */
    method SetSnapshot(v: VersionName, s: Snapshot)
      requires Unnamed(v)
      modifies this`inputs
      ensures Unnamed(v) && inputs == old(inputs)[v := s]
    {
      hide Holding, Monotone;
      inputs := inputs[v := s];
    }

    /** One folder of a snapshot directory. */
    method CreateFolder(v: VersionName, d: Folder, fate: Fate) returns (exit: Exit)
      requires Unnamed(v) && v in inputs && inputs[v].files == map[]
      modifies this`inputs
      ensures Unnamed(v) && inputs - {v} == old(inputs) - {v} && v in inputs && inputs[v].files == map[]
      ensures inputs[v].folders == old(inputs)[v].folders
        || inputs[v].folders == old(inputs)[v].folders + {d}
      ensures exit == ExitOf(fate)
      ensures exit == Continues ==> inputs[v].folders == old(inputs)[v].folders + {d}
    {
      if EffectOf(fate) != Nothing {
        SetSnapshot(v, inputs[v].(folders := inputs[v].folders + {d}));
      }
      return ExitOf(fate);
    }

    method CreateFolders(v: VersionName, fates: Point -> Fate) returns (exit: Exit)
      requires Unnamed(v) && v in inputs && inputs[v] == Snapshot({}, map[])
      modifies this`inputs
      ensures Unnamed(v) && inputs - {v} == old(inputs) - {v}
      ensures v in inputs && Tree(inputs[v]) && inputs[v].files == map[]
      ensures exit == Continues ==> inputs[v].folders == ALL_FOLDERS
      ensures (forall pt :: fates(pt).Goes?) ==> exit == Continues
    {
      hide Unnamed;
      exit := CreateFolder(v, Reports, fates(MakeFolder(Reports)));
      if exit == Continues {
        exit := CreateFolder(v, Memory, fates(MakeFolder(Memory)));
        if exit == Continues {
          exit := CreateFolder(v, Macro, fates(MakeFolder(Macro)));
        }
      }
    }

    method WriteInputs(v: VersionName, records: map<Logical, Bytes>, fates: Point -> Fate) returns (exit: Exit)
      requires records.Keys == set l | l in LOGICALS
      requires Unnamed(v) && v in inputs && inputs[v] == Snapshot(ALL_FOLDERS, map[])
      modifies this`inputs
      ensures Unnamed(v) && inputs - {v} == old(inputs) - {v} && v in inputs && inputs[v].folders == ALL_FOLDERS
      ensures exit == Continues ==> inputs[v].files == map l | l in records :: Some(records[l])
      ensures (forall pt :: fates(pt).Goes?) ==> exit == Continues
    {
      hide Unnamed;
      ghost var before := inputs;
      for i := 0 to |LOGICALS|
        invariant Unnamed(v) && inputs - {v} == before - {v} && v in inputs
        invariant inputs[v].folders == ALL_FOLDERS && inputs[v].files.Keys == set l | l in LOGICALS[..i]
        invariant forall l | l in inputs[v].files :: inputs[v].files[l] == Some(records[l])
      {
        var l := LOGICALS[i];
        var fate := fates(WriteInput(l));
        assert LOGICALS[..i + 1] == LOGICALS[..i] + [l];
        if EffectOf(fate) != Nothing {
          var file := if EffectOf(fate) == Whole then Some(records[l]) else None;
          SetSnapshot(v, inputs[v].(files := inputs[v].files[l := file]));
        }
        if !fate.Goes? {
          return ExitOf(fate);
        }
      }
      assert LOGICALS[..|LOGICALS|] == LOGICALS;
      return Continues;
    }

    /** Create the snapshot directory, its folders and its six files, then seal it. */
    method StageInputs(v: VersionName, records: map<Logical, Bytes>, fates: Point -> Fate)
      returns (exit: Exit, made: bool)
      requires Valid() && records.Keys == set l | l in LOGICALS
      modifies this`inputs
      ensures Valid() && inputs - {v} == old(inputs) - {v} && Extends(old(inputs), inputs)
      ensures v in old(inputs) ==> exit == Raised && !made && inputs == old(inputs)
      ensures made ==> v in inputs && Tree(inputs[v]) && Unnamed(v)
      ensures exit == Continues ==> made && inputs[v].folders == ALL_FOLDERS
      ensures exit == Continues ==> inputs[v].files == map l | l in records :: Some(records[l])
      ensures !made && exit == Raised && CleanCreation(fates) ==> inputs == old(inputs)
      ensures (forall pt :: fates(pt).Goes?) && v !in old(inputs) ==> exit == Continues
    {
      made := false;
      if v in inputs {
        return Raised, made;
      }
      assert Unnamed(v);
      hide Unnamed;
      var fate := fates(MakeVersion);
      if EffectOf(fate) != Nothing {
        SetSnapshot(v, Snapshot({}, map[]));
      }
      exit := ExitOf(fate);
      if fate.Goes? {
        made := true;
        exit := CreateFolders(v, fates);
        if exit == Continues {
          exit := WriteInputs(v, records, fates);
          if exit == Continues {
            exit := ExitOf(fates(Seal));
          }
        }
      }
      AgreeOutside(old(inputs), inputs, v);
    }

    method UnlinkInputs(v: VersionName, fates: Point -> Fate) returns (exit: Exit)
      requires Unnamed(v) && v in inputs
      modifies this`inputs
      ensures Unnamed(v) && v in inputs && inputs - {v} == old(inputs) - {v}
      ensures inputs[v].folders == old(inputs)[v].folders
      ensures CleanRemoval(fates) && Tree(old(inputs)[v]) ==> inputs[v].files == map[]
      ensures CleanRemoval(fates) ==> exit == Continues
      ensures exit != Raised
    {
      hide Unnamed;
      ghost var before := inputs;
      for i := 0 to |LOGICALS|
        invariant Unnamed(v) && v in inputs && inputs - {v} == before - {v}
        invariant inputs[v].folders == before[v].folders && inputs[v].files.Keys <= before[v].files.Keys
        invariant CleanRemoval(fates) && Tree(before[v]) ==> forall l | l in LOGICALS[..i] :: l !in inputs[v].files
      {
        var l := LOGICALS[i];
        assert LOGICALS[..i + 1] == LOGICALS[..i] + [l];
        if Home(l) in inputs[v].folders && EffectOf(fates(UnlinkInput(l))) == Whole {
          SetSnapshot(v, inputs[v].(files := inputs[v].files - {l}));
        }
        if fates(UnlinkInput(l)).Dies? {
          return Died;
        }
      }
      assert LOGICALS[..|LOGICALS|] == LOGICALS;
      forall l: Logical
        ensures l in LOGICALS
      {
        AllListed(l);
      }
      return Continues;
    }

    /** Remove one folder if it is empty. */
    method DeleteFolder(v: VersionName, d: Folder, fate: Fate) returns (exit: Exit)
      requires Unnamed(v) && v in inputs
      modifies this`inputs
      ensures Unnamed(v) && v in inputs && inputs - {v} == old(inputs) - {v}
      ensures inputs[v].files == old(inputs)[v].files
      ensures fate.Goes? && inputs[v].files == map[] && (d == Memory ==> Macro !in old(inputs)[v].folders) ==>
        inputs[v].folders == old(inputs)[v].folders - {d}
      ensures fate.Goes? ==> exit == Continues
      ensures exit != Raised
    {
      var empty := (forall l | l in inputs[v].files :: Home(l) != d) && (d == Memory ==> Macro !in inputs[v].folders);
      if empty && EffectOf(fate) == Whole {
        SetSnapshot(v, inputs[v].(folders := inputs[v].folders - {d}));
      }
      return if fate.Dies? then Died else Continues;
    }

    method DeleteFolders(v: VersionName, fates: Point -> Fate) returns (exit: Exit)
      requires Unnamed(v) && v in inputs
      modifies this`inputs
      ensures Unnamed(v) && v in inputs && inputs - {v} == old(inputs) - {v}
      ensures CleanRemoval(fates) && old(inputs)[v].files == map[] ==> inputs[v].folders == {}
      ensures CleanRemoval(fates) ==> exit == Continues
      ensures exit != Raised
    {
      hide Unnamed;
      NoOtherFolder(inputs[v].folders);
      exit := DeleteFolder(v, Macro, fates(RemoveFolder(Macro)));
      if exit == Continues {
        exit := DeleteFolder(v, Memory, fates(RemoveFolder(Memory)));
        if exit == Continues {
          exit := DeleteFolder(v, Reports, fates(RemoveFolder(Reports)));
        }
      }
    }

    method DeleteVersion(v: VersionName, fate: Fate) returns (exit: Exit)
      requires Unnamed(v) && v in inputs
      modifies this`inputs
      ensures Unnamed(v) && inputs - {v} == old(inputs) - {v}
      ensures fate.Goes? && old(inputs)[v].folders == {} ==> v !in inputs
      ensures fate.Goes? ==> exit == Continues
      ensures exit != Raised
    {
      hide Holding, Monotone;
      if inputs[v].folders == {} && EffectOf(fate) == Whole {
        inputs := inputs - {v};
      }
      return if fate.Dies? then Died else Continues;
    }

    /** Best-effort removal of the snapshot directory this call created. */
    method CleanupVersion(v: VersionName, fates: Point -> Fate) returns (exit: Exit)
      requires Unnamed(v)
      modifies this`inputs
      ensures Unnamed(v) && inputs - {v} == old(inputs) - {v}
      ensures CleanRemoval(fates) && (v in old(inputs) ==> Tree(old(inputs)[v])) ==> v !in inputs
      ensures CleanRemoval(fates) ==> exit == Continues
      ensures exit != Raised
    {
      hide Unnamed;
      if v !in inputs {
        return Continues;
      }
      exit := UnlinkInputs(v, fates);
      if exit == Continues {
        exit := DeleteFolders(v, fates);
        if exit == Continues {
          exit := DeleteVersion(v, fates(RemoveVersion));
        }
      }
    }

    /** The rename that activates `p`, then the directory syncs. */
    method Activate(p: Plan, temp: FileName, fates: Point -> Fate) returns (exit: Exit, published: bool)
      requires Valid() && Named(authority, inputs, p) && ActivationDecision(active, ActiveOf(p)) == Fresh
      requires temp.TempName? && temp in authority && authority[temp] == ActiveJson(ActiveOf(p))
      modifies this`authority, this`active, this`history
      ensures Valid()
      ensures published ==> history == old(history) + [p] && authority == old(authority) - {temp}
      ensures !published ==> exit != Continues
      ensures !published ==> unchanged(this)
      ensures (forall pt :: fates(pt).Goes?) ==> exit == Continues
    {
      hide Holding;
      var fate := fates(RenameActive);
      published := fate.Goes? || (fate.Dies? && fate.effect == Whole);
      exit := ExitOf(fate);
      if published {
        var record := authority[temp].active;
        assert history != [] ==> Extended(history[|history| - 1], p) by {
          if history != [] { DecisionMeaning(history[|history| - 1], p); }
        }
        authority := authority - {temp};
        active := Some(record);
        history := history + [p];
      }
      if fate.Goes? {
        exit := ExitOf(fates(SyncDirectories));
      }
    }

    /** The plan, the manifest and the temporary active record, in that order. */
    method WriteRecords(p: Plan, token: string, fates: Point -> Fate) returns (exit: Exit, created: Created)
      requires Valid()
      modifies this`authority
      ensures Valid()
      ensures Leftover(p, token, created, old(authority), authority) && Extends(old(authority), authority)
      ensures exit != Died && CleanCreation(fates) ==> Accounted(p, token, created, old(authority), authority)
      ensures exit == Continues ==> authority == WithRecords(old(authority), p, token)
      ensures exit == Continues ==> created == Created(true, true, true) && !Clashes(p, token, old(authority))
      ensures authority.Keys <= old(authority).Keys + NewNames(p, token)
      ensures (forall pt :: fates(pt).Goes?) ==> exit == Continues || Clashes(p, token, old(authority))
    {
      hide Valid;
      created := Created(false, false, false);
      exit := WriteAuthorityFile(PlanPath(p), PlanJson(p), fates(WritePlan));
      if exit != Continues { return; }
      created := created.(plan := true);
      exit := WriteAuthorityFile(ManifestPath(p), ManifestJson(ManifestOf(p)), fates(WriteManifest));
      if exit != Continues { return; }
      created := created.(manifest := true, temp := true);
      exit := WriteAuthorityFile(TempName(token), ActiveJson(ActiveOf(p)), fates(WriteTemp));
    }

    /** Everything before activation: the snapshot directory, then the records. */
    method PrepareFiles(p: Plan, records: map<Logical, Bytes>, token: string, fates: Point -> Fate)
      returns (exit: Exit, made: bool, created: Created)
      requires Valid() && Describes(p, records)
      modifies this`inputs, this`authority
      ensures Valid() && inputs - {InputDirectory(p)} == old(inputs) - {InputDirectory(p)}
      ensures Extends(old(inputs), inputs) && Extends(old(authority), authority)
      ensures Leftover(p, token, created, old(authority), authority)
      ensures made ==> Unnamed(InputDirectory(p)) && InputDirectory(p) !in old(inputs)
      ensures made ==> InputDirectory(p) in inputs && Tree(inputs[InputDirectory(p)])
      ensures !made && exit == Raised && CleanCreation(fates) ==> inputs == old(inputs)
      ensures exit != Died && CleanCreation(fates) ==> Accounted(p, token, created, old(authority), authority)
      ensures authority.Keys <= old(authority).Keys + NewNames(p, token)
      ensures exit == Continues ==> made && Named(authority, inputs, p) && !Clashes(p, token, old(authority))
      ensures exit == Continues ==>
        TempName(token) in authority && authority[TempName(token)] == ActiveJson(ActiveOf(p))
      ensures (forall pt :: fates(pt).Goes?) ==>
        exit == Continues || InputDirectory(p) in old(inputs) || Clashes(p, token, old(authority))
    {
      hide Holding, Monotone, Clashes, CleanCreation, Tree;
      created := Created(false, false, false);
      UntouchedIsAccounted(p, token, authority);
      hide Leftover, Accounted;
      exit, made := StageInputs(InputDirectory(p), records, fates);
      if exit != Continues { return; }
      exit := ExitOf(fates(Recheck(2)));
      if exit != Continues { return; }
      exit, created := WriteRecords(p, token, fates);
      if exit != Continues { return; }
      assert Named(authority, inputs, p) by { StagedIsNamed(p, records, inputs[InputDirectory(p)]); }
      exit := ExitOf(fates(Recheck(3)));
    }

    /** The files, then activation. */
    method Publish(p: Plan, records: map<Logical, Bytes>, token: string, fates: Point -> Fate)
      returns (exit: Exit, made: bool, created: Created, published: bool)
      requires Valid() && Describes(p, records) && ActivationDecision(active, ActiveOf(p)) == Fresh
      modifies this
      ensures Valid() && inputs - {InputDirectory(p)} == old(inputs) - {InputDirectory(p)}
      ensures Extends(old(inputs), inputs) && ExtendsBut(old(authority), authority, TempName(token))
      ensures authority.Keys <= old(authority).Keys + NewNames(p, token)
      ensures published ==>
        history == old(history) + [p] && InputDirectory(p) !in old(inputs) && !Clashes(p, token, old(authority))
      ensures exit == Continues ==> published
      ensures !published ==> exit != Continues && active == old(active) && history == old(history)
      ensures !published ==> Leftover(p, token, created, old(authority), authority)
      ensures !published && made ==> Unnamed(InputDirectory(p)) && InputDirectory(p) !in old(inputs)
      ensures !published && made ==> InputDirectory(p) in inputs && Tree(inputs[InputDirectory(p)])
      ensures !published && !made && exit == Raised && CleanCreation(fates) ==> inputs == old(inputs)
      ensures !published && exit == Raised && CleanCreation(fates) ==>
        Accounted(p, token, created, old(authority), authority)
      ensures (forall pt :: fates(pt).Goes?) ==>
        exit == Continues || InputDirectory(p) in old(inputs) || Clashes(p, token, old(authority))
    {
      hide Holding, Monotone, ActivationDecision, Clashes, CleanCreation, Tree, Leftover, Accounted, Named, Describes;
      published := false;
      exit, made, created := PrepareFiles(p, records, token, fates);
      if exit == Continues {
        exit, published := Activate(p, TempName(token), fates);
      }
    }

    /** Undo what the flags record: temporary record, manifest, plan, snapshot directory. */
    method Rollback(
      p: Plan, token: string, made: bool, created: Created, fates: Point -> Fate,
      ghost before: map<FileName, Content>)
      returns (exit: Exit)
      requires Valid() && Leftover(p, token, created, before, authority)
      requires forall q | q in history :: Named(before, inputs, q)
      requires made ==> Unnamed(InputDirectory(p))
      modifies this`authority, this`inputs
      ensures Valid() && ExtendsBut(before, authority, TempName(token)) && authority.Keys <= old(authority).Keys
      ensures TempName(token) !in before ==> Extends(before, authority)
      ensures inputs - {InputDirectory(p)} == old(inputs) - {InputDirectory(p)}
      ensures !made ==> inputs == old(inputs)
      ensures CleanRemoval(fates) && Accounted(p, token, created, before, old(authority)) ==>
        authority - {TempName(token)} == before - {TempName(token)}
      ensures CleanRemoval(fates) && made && (InputDirectory(p) in old(inputs) ==> Tree(old(inputs)[InputDirectory(p)]))
        ==> InputDirectory(p) !in inputs
      ensures CleanRemoval(fates) ==> exit == Continues
    {
      hide Holding, Monotone, Tree;
      ghost var full := authority;
      exit := RemoveRecords(p, token, created, fates, before);
      if CleanRemoval(fates) && Accounted(p, token, created, before, full) {
        RemovalRestores(p, token, created, before, full);
      }
      if exit == Continues && made {
        assert Unnamed(InputDirectory(p));
        exit := CleanupVersion(InputDirectory(p), fates);
      }
    }

    method RemoveRecords(
      p: Plan, token: string, created: Created, fates: Point -> Fate, ghost before: map<FileName, Content>)
      returns (exit: Exit)
      requires Valid() && Leftover(p, token, created, before, authority)
      requires forall q | q in history :: Named(before, inputs, q)
      modifies this`authority
      ensures Valid() && ExtendsBut(before, authority, TempName(token)) && authority.Keys <= old(authority).Keys
      ensures CleanRemoval(fates) ==> authority == old(authority) - Flagged(p, token, created) && exit == Continues
    {
      ghost var kept := before - {TempName(token)};
      forall q | q in history
        ensures Named(kept, inputs, q)
      {
        assert Named(before, inputs, q);
      }
      assert (created.plan ==> PlanPath(p) !in kept) && (created.manifest ==> ManifestPath(p) !in kept);
      assert Extends(kept, authority);
      UnlinkedInTurn(authority, p, token, created);
      hide Holding, Monotone, Named, Leftover, Valid, Flagged, Extends, ExtendsBut, PlanPath, ManifestPath;
      exit := UnlinkIf(created.temp, TempName(token), fates(UnlinkTemp), kept);
      if exit == Continues {
        exit := UnlinkIf(created.manifest, ManifestPath(p), fates(UnlinkManifest), kept);
      }
      if exit == Continues {
        exit := UnlinkIf(created.plan, PlanPath(p), fates(UnlinkPlan), kept);
      }
      ExtendsWithout(before, TempName(token), authority);
    }

    /** Compare the whole active publication with what this call would publish. */
    method ValidatePublication(p: Plan, records: map<Logical, Bytes>) returns (ok: bool)
      requires Describes(p, records)
      ensures ok <==> active == Some(ActiveOf(p)) && Named(authority, inputs, p)
    {
      if active != Some(ActiveOf(p))
        || PlanPath(p) !in authority || authority[PlanPath(p)] != PlanJson(p)
        || ManifestPath(p) !in authority || authority[ManifestPath(p)] != ManifestJson(ManifestOf(p))
        || InputDirectory(p) !in inputs {
        return false;
      }
      var s := inputs[InputDirectory(p)];
      if s.folders != ALL_FOLDERS || s.files.Keys != set l | l in LOGICALS {
        return false;
      }
      for i := 0 to |LOGICALS|
        invariant forall l | l in LOGICALS[..i] :: s.files[l] == Some(records[l])
      {
        var l := LOGICALS[i];
        assert LOGICALS[..i + 1] == LOGICALS[..i] + [l];
        if s.files[l] != Some(records[l]) {
          assert !Holding(s, p.sources);
          return false;
        }
      }
      assert LOGICALS[..|LOGICALS|] == LOGICALS;
      return true;
    }

    /** Apply an approved plan. */
    method Apply(
      version: string, generated: int, validity: int, context: string, short: string,
      records: map<Logical, Bytes>, approved: PlanDigest, now: int, token: string, fates: Point -> Fate)
      returns (outcome: Outcome, ghost p: Plan)
      requires Valid()
      modifies this
      ensures p == PlanFor(version, generated, validity, context, short, records)
      // a store that was ever activated keeps everything an activation named
      ensures Valid()
      ensures history == old(history) || (history == old(history) + [p] && Admissible(p, records, approved, now, old(history)))
      ensures Extends(old(inputs), inputs) && ExtendsBut(old(authority), authority, TempName(token))
      ensures authority.Keys <= old(authority).Keys + NewNames(p, token)
      ensures inputs - {InputDirectory(p)} == old(inputs) - {InputDirectory(p)}
      ensures history != old(history) ==> InputDirectory(p) !in old(inputs) && !Clashes(p, token, old(authority))
      ensures outcome == Published ==> history == old(history) + [p]
      ensures outcome == AlreadyActive || outcome == Refused ==> unchanged(this)
      ensures outcome == Failed && history == old(history) && CleanCreation(fates) && CleanRemoval(fates) ==>
        inputs == old(inputs) && authority - {TempName(token)} == old(authority) - {TempName(token)}
      ensures (forall pt :: fates(pt).Goes?) ==>
        (outcome == Refused <==> !Admissible(p, records, approved, now, old(history)))
      ensures (forall pt :: fates(pt).Goes?) ==>
        (outcome == AlreadyActive <==>
          Admissible(p, records, approved, now, old(history)) && old(history) != [] && p == Last(old(history)))
      ensures (forall pt :: fates(pt).Goes?) ==>
        (outcome == Published <==>
          && Admissible(p, records, approved, now, old(history)) && (old(history) == [] || p != Last(old(history)))
          && InputDirectory(p) !in old(inputs) && !Clashes(p, token, old(authority)))
    {
      hide Monotone, Holding, Named, CleanCreation, CleanRemoval, Clashes, Leftover, Accounted, Tree;
      var plan := PlanFor(version, generated, validity, context, short, records);
      p := plan;
      if records.Keys != (set l | l in LOGICALS) || !(1 <= validity <= 30) || approved != Sha256OfPlan(plan) {
        return Refused, p;
      }
      var exit := ExitOf(fates(Recheck(0)));
      if exit != Continues {
        return Ended(exit), p;
      }
      var decision := ActivationDecision(active, ActiveOf(plan));
      if history != [] { DecisionMeaning(Last(history), plan); }
      if decision == Refuse || !ClockAllows(plan, now) {
        return Refused, p;
      }
      if decision == Idempotent {
        var ok := ValidatePublication(plan, records);
        exit := ExitOf(fates(Recheck(1)));
        outcome := if !ok then Refused else if exit == Continues then AlreadyActive else Ended(exit);
        return;
      }
      exit := ExitOf(fates(Recheck(1)));
      if exit != Continues {
        return Ended(exit), p;
      }
      outcome := PublishOrUndo(plan, records, token, fates);
    }

    /** Publish; when that raises before activation, roll back. */
    method PublishOrUndo(p: Plan, records: map<Logical, Bytes>, token: string, fates: Point -> Fate)
      returns (outcome: Outcome)
      requires Valid() && Describes(p, records) && ActivationDecision(active, ActiveOf(p)) == Fresh
      modifies this
      ensures Valid() && (history == old(history) || history == old(history) + [p])
      ensures Extends(old(inputs), inputs) && ExtendsBut(old(authority), authority, TempName(token))
      ensures authority.Keys <= old(authority).Keys + NewNames(p, token)
      ensures inputs - {InputDirectory(p)} == old(inputs) - {InputDirectory(p)}
      ensures history != old(history) ==> InputDirectory(p) !in old(inputs) && !Clashes(p, token, old(authority))
      ensures outcome == Published ==> history == old(history) + [p]
      ensures outcome in {Published, Failed, Killed}
      ensures outcome == Failed && history == old(history) && CleanCreation(fates) && CleanRemoval(fates) ==>
        inputs == old(inputs) && authority - {TempName(token)} == old(authority) - {TempName(token)}
      ensures (forall pt :: fates(pt).Goes?) && outcome in {Failed, Killed} ==>
        InputDirectory(p) in old(inputs) || Clashes(p, token, old(authority))
    {
      hide Monotone, Holding, Named, CleanCreation, CleanRemoval, Clashes, Leftover, Accounted, Tree;
      var exit, made, created, published := Publish(p, records, token, fates);
      if exit == Continues {
        return Published;
      }
      if exit == Raised && !published {
        forall q | q in history
          ensures Named(old(authority), inputs, q)
        {
          NamedExtends(old(authority), old(inputs), old(authority), inputs, q);
        }
        exit := Rollback(p, token, made, created, fates, old(authority));
        if made { AgreeOutside(old(inputs), inputs, InputDirectory(p)); }
        return if exit == Died then Killed else Failed;
      }
      return Ended(exit);
    }
  }

  function PlanFor(
    version: string, generated: int, validity: int, context: string, short: string, records: map<Logical, Bytes>): Plan
  {
    Plan(version, generated, validity, map l | l in records :: Sha256OfInput(records[l]), context, short)
  }

  function Last(history: seq<Plan>): Plan
    requires history != []
  {
    history[|history| - 1]
  }

  /** What a caller can check before an apply: the plan is approved, current, and repeats or advances the active one. */
  ghost predicate Admissible(
    p: Plan, records: map<Logical, Bytes>, approved: PlanDigest, now: int, history: seq<Plan>)
  {
    && records.Keys == (set l | l in LOGICALS) && 1 <= p.validity <= 30
    && approved == Sha256OfPlan(p) && ClockAllows(p, now)
    && (history == [] || p == Last(history) || Extended(Last(history), p))
  }

  function OnlyIf<T>(flagged: bool, x: T): set<T> {
    if flagged then {x} else {}
  }

  function Flagged(p: Plan, token: string, c: Created): set<FileName> {
    OnlyIf(c.temp, TempName(token)) + OnlyIf(c.manifest, ManifestPath(p)) + OnlyIf(c.plan, PlanPath(p))
  }

  lemma UnlinkedInTurn(a: map<FileName, Content>, p: Plan, token: string, c: Created)
    ensures a - OnlyIf(c.temp, TempName(token)) - OnlyIf(c.manifest, ManifestPath(p)) - OnlyIf(c.plan, PlanPath(p))
      == a - Flagged(p, token, c)
  {
  }

  lemma ExtendsWithout<K, V>(m: map<K, V>, but: K, n: map<K, V>)
    requires Extends(m - {but}, n)
    ensures ExtendsBut(m, n, but)
  {
    assert forall k | k in m && k != but :: k in m - {but};
  }

  /** Maps that agree outside a key the first lacks. */
  lemma AgreeOutside<K, V>(m: map<K, V>, n: map<K, V>, k: K)
    requires m - {k} == n - {k} && k !in m
    ensures Extends(m, n) && (k !in n ==> m == n)
  {
    assert m - {k} == m;
    assert forall x | x in m :: x in n - {k};
    assert k !in n ==> n - {k} == n;
  }

  lemma RemovalRestores(p: Plan, token: string, c: Created, before: map<FileName, Content>, now: map<FileName, Content>)
    requires Leftover(p, token, c, before, now) && Accounted(p, token, c, before, now)
    ensures now - Flagged(p, token, c) - {TempName(token)} == before - {TempName(token)}
  {
    var rest := now - Flagged(p, token, c) - {TempName(token)};
    assert forall k :: k in rest <==> k in before && k != TempName(token);
  }

  lemma NamedExtends(
    a: map<FileName, Content>, i: map<VersionName, Snapshot>, b: map<FileName, Content>, j: map<VersionName, Snapshot>, p: Plan)
    requires Named(a, i, p) && Extends(a, b) && Extends(i, j)
    ensures Named(b, j, p)
  {
  }

  function WithRecords(a: map<FileName, Content>, p: Plan, token: string): map<FileName, Content> {
    a[PlanPath(p) := PlanJson(p)][ManifestPath(p) := ManifestJson(ManifestOf(p))]
      [TempName(token) := ActiveJson(ActiveOf(p))]
  }

  lemma UntouchedIsAccounted(p: Plan, token: string, a: map<FileName, Content>)
    ensures Leftover(p, token, Created(false, false, false), a, a)
    ensures Accounted(p, token, Created(false, false, false), a, a)
  {
  }

  /** The authority names a call may create. */
  function NewNames(p: Plan, token: string): set<FileName> {
    {PlanPath(p), ManifestPath(p), TempName(token)}
  }

  /** A name this call is to create already exists. */
  predicate Clashes(p: Plan, token: string, authority: map<FileName, Content>) {
    PlanPath(p) in authority || ManifestPath(p) in authority || TempName(token) in authority
  }

  /** Apart from the temporary record, exactly the flagged files are new. */
  ghost predicate Accounted(
    p: Plan, token: string, c: Created, before: map<FileName, Content>, now: map<FileName, Content>)
  {
    now.Keys + {TempName(token)} == before.Keys + {TempName(token)}
      + OnlyIf(c.plan, PlanPath(p)) + OnlyIf(c.manifest, ManifestPath(p))
  }

  /** The plan's recorded digests are those of the six inputs. */
  predicate Describes(p: Plan, records: map<Logical, Bytes>) {
    && records.Keys == (set l | l in LOGICALS)
    && p.sources == map l | l in records :: Sha256OfInput(records[l])
  }

  predicate Extended(last: Plan, p: Plan) {
    last.generated < p.generated && last.version != p.version
  }

  lemma StagedIsNamed(p: Plan, records: map<Logical, Bytes>, s: Snapshot)
    requires Describes(p, records) && s.folders == ALL_FOLDERS
    requires s.files == map l | l in records :: Some(records[l])
    ensures Holding(s, p.sources)
  {
  }

  /** Between two authority directories lie only this call's files, each flagged one a new one. */
  ghost predicate Leftover(
    p: Plan, token: string, c: Created, before: map<FileName, Content>, now: map<FileName, Content>)
  {
    && Extends(before, now)
    && now.Keys <= before.Keys + {PlanPath(p), ManifestPath(p), TempName(token)}
    && (c.plan ==> PlanPath(p) !in before) && (c.manifest ==> ManifestPath(p) !in before)
    && (TempName(token) in now ==> TempName(token) in before || c.temp)
  }

  lemma NoOtherFolder(s: set<Folder>)
    ensures s - {Macro} - {Memory} - {Reports} == {}
  {
    forall d | d in s
      ensures d in {Macro, Memory, Reports}
    {
      match d case Macro => case Memory => case Reports =>
    }
  }

  lemma AllListed(l: Logical)
    ensures l in LOGICALS
  {
    match l
    case MacroReport => assert LOGICALS[0] == l;
    case SentimentReport => assert LOGICALS[1] == l;
    case OnchainReport => assert LOGICALS[2] == l;
    case FredCache => assert LOGICALS[3] == l;
    case CrossAssetCache => assert LOGICALS[4] == l;
    case CryptoGlobalCache => assert LOGICALS[5] == l;
  }
}
