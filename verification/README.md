# A verified model of the Trading-Agent authority, provenance and publication code

The project models the parts of Trading-Agent that decide whether something may be believed: who
may act under a LOCAL approval, which source a commit stands for, which archive bytes are
accepted, and how results are published so that readers never see a half-made one. Each part is
written in the form of its source (a class where the source updates files or dictionaries, a loop
where the source loops, functions where it computes) and its promises are proved for all inputs
or over all runs.

Check everything with `dafny verify dfyconfig.toml`.

## How it is organised

* **LOCAL authority** (`packages/local_authority.py`). `AuthorityProtocol` is a transition system:
  many processes, one lock, one step per atomic publish and per approval read, a crash or reboot
  possible between any two steps, and a rogue writer that never takes the lock. `AuthoritySafety`
  proves the invariant of every step, `AuthorityRuns` and `AuthorityHold` the theorems over whole
  runs. `AuthorityStores.AuthorityStore` is the imperative program; its ghost trace shows that every
  call is a run of the protocol, and its contracts say exactly when each call succeeds.
* **Source provenance** (`packages/pre_p3_provenance.py`). `TreeListing` and `GitBatch` read what
  Git prints, `SourceClosure` is the framed hash preimage, `SourceIdentity` the recursive identity
  over a commit graph.
* **Archives and the two-build protocol** (`scripts/build_nautilus_engine.py`). `ZipLayout` and
  `ZipPreflight` cover the end record, the extra fields, the central directory and the local
  headers of sections 4.3.16, 4.5.1, 4.3.12 and 4.3.7 of the PKWARE .ZIP File Format Specification
  (APPNOTE.TXT). `ArchivePaths` is the collision registry, `DiagnosticNames` the shortening of
  member names, `TwoBuild` the concurrent Build A / Build B protocol and `CandidateRoots` the two
  commands as they run.
* **Publication machines.** `SemanticPublication`
  (`scripts/build_phase4_semantic_manifest.py`) injects a failure or a kill at every file system
  change. `EvidenceTree`, `Checksums`, `EvidenceSet` and `EvidencePublication`
  (`scripts/check_artifact_firewall.py`) are the tree builder, the checksum index, the manifest with
  its validator, and the publication that joins them.
* **Smaller cores.** `SecretKeys` (`packages/deployment_evidence.py`), `Documents`
  (`packages/data_documents.py`), `Normalization` (`packages/data_normalization.py`).
* `Basics` and `Ordering` hold shared value types, stable sorting and lexicographic order.

SHA-256 is a free constructor of what it hashes, or a given function; where a theorem needs two
particular files not to collide, that is a stated hypothesis about those files. Clocks, process identities, tokens and the outcome of
foreign calls are parameters.

## Model

| member | source | states |
|---|---|---|
| AuthoritySafety.InvStep | packages/local_authority.py:159-579 | every step of every process, crash, reboot or rogue write keeps the invariant over files, admission history, effects and the critical section |
| AuthoritySafety.StageKeeps | packages/local_authority.py:466-467 | the exclusive creation of a staging directory never collides, and creating it keeps the invariant |
| AuthoritySafety.PublishCommitKeeps | packages/local_authority.py:480-490 | publishing a commit keeps the invariant: its bundle is complete, matches its manifest, and its generation is new |
| AuthorityRuns.ReachableInv | packages/local_authority.py:159-579 | every state of every run satisfies the invariant |
| AuthorityRuns.RunGrows | packages/local_authority.py:192-219 | along any run the generation and the ledger never fall, commits, prepared snapshots and effects are only added to, no staging directory is withdrawn and no staged member changes |
| AuthorityRuns.EffectsAtMostOnce | packages/local_authority.py:494-579 | of any two effects or ledger writes in any interleaving the later acts on a strictly newer admission, and the ledger names an admission before its effect: each effect is applied at most once |
| AuthorityRuns.ConsumptionBound | packages/local_authority.py:425-579 | for every spend of every run: it spends the very record an earlier event published, nobody advanced the store in between, and the approvals and receipts the consumer read are those that admission's validator was given, whatever a rogue writer did |
| AuthorityRuns.SpendHasCommit | packages/local_authority.py:484-579 | every spend of a run has an earlier commit event of the same generation |
| AuthorityRuns.SpendBound | packages/local_authority.py:552-576 | a section that may spend holds the current commit at the current generation with the approvals and receipts of its validation |
| AuthorityRuns.NoAdvanceBetween | packages/local_authority.py:192-202 | between two states of a run at the same generation no writer or admission advanced |
| AuthorityHold.InterruptionLeavesStale | packages/local_authority.py:245-262 | a crash, reboot or refusal between the advance and the attestation leaves the attestation stale |
| AuthorityHold.EarlyRefusalChangesNothing | packages/local_authority.py:395-456 | a refusal or crash before the advance leaves every file as it was |
| AuthorityHold.HeldUntilReattested | packages/local_authority.py:342-364 | from a stale store, until an enrolment or writer completes, every bypass check refuses and nothing is admitted, staged, spent or applied in any interleaving |
| AuthorityHold.InterruptedStoreIsHeld | packages/local_authority.py:456-490 | the same from the interruption itself onwards |
| AuthorityHold.AttestationRefreshes | packages/local_authority.py:326-339 | an attestation published over a reading no rogue write disturbed describes the current approvals at the current generation |
| AuthorityHold.CleanStoreNeverHeld | packages/local_authority.py:322-364 | conversely, a fresh store touched only by completed transactions is never reported as bypassed |
| AuthorityHold.BypassIsCaught | packages/local_authority.py:223-262 | once the approvals are not those attested, at whatever generation, every bypass check refuses and nothing is admitted, staged, spent or applied in any interleaving until an enrolment or writer completes |
| AuthorityHold.LateRogueIsAttested | packages/local_authority.py:488-491 | a rogue write after the commit rename is attested by the admission's own attestation: the store ends fresh with the rogue approval |
| AuthorityHold.StoreOrdered | packages/local_authority.py:573-606 | in every reachable state consumed <= published <= generation, staged generations do not exceed it, the visible commit has a complete matching bundle, and an orphaned stage was never committed |
| AuthorityStores.AuthorityStore.EnrolStore | packages/local_authority.py:316-339 | enrolment succeeds exactly when every gate has an approval; it attests the store as it is, otherwise nothing changes; the boot and the applied effects stay |
| AuthorityStores.AuthorityStore.ReplaceApprovalSet | packages/local_authority.py:223-262 | exactly when a replacement is installed, the new approvals, the next generation and a fresh attestation; a refusal changes nothing; the boot and the applied effects stay |
| AuthorityStores.AuthorityStore.CheckAttestation | packages/local_authority.py:342-364 | the bypass check passes exactly when the attestation matches generation and approvals |
| AuthorityStores.AuthorityStore.AdmitAction | packages/local_authority.py:395-491 | success exactly on Admissible, with the whole new store; a refusal changes nothing when a condition checked before the advance fails, and otherwise leaves the advanced store stale with nothing admitted |
| AuthorityStores.AuthorityStore.ConsumeAdmission | packages/local_authority.py:513-579 | success exactly on Consumable; the ledger is written before the effect, the effect happens once with the current snapshot, a refusal changes nothing |
| AuthorityStores.AuthorityStore.AdmitThenConsume | packages/local_authority.py:395-579 | end to end: what was admitted is consumed for the same request exactly while every approval is live and neither deadline has passed; at most one effect, on the admitted generation |
| AuthorityStores.AdmittedIsConsumable | packages/local_authority.py:513-579 | a fresh store with an unspent commit of its own generation and boot is consumable exactly under those three conditions |
| AuthorityStores.AuthorityStore.Recover | packages/local_authority.py:582-606 | the orphans are exactly the staged generations above the commit, ascending, none ever committed; whether the commit is still consumable |
| TreeListing.ParseTree | packages/pre_p3_provenance.py:149-173 | the record loop, the comparison with the sorted list and the path count compute the parse |
| TreeListing.AscendingTest | packages/pre_p3_provenance.py:169-172 | equal to its own sort with as many paths as entries means strictly ascending paths, and conversely |
| TreeListing.ParsedExactly | packages/pre_p3_provenance.py:149-173 | a listing is accepted exactly when its non-empty records are the printed entries, each a proper blob under a canonical path, in strictly ascending order |
| TreeListing.TreeRoundTrip | packages/pre_p3_provenance.py:149-173 | the reader inverts the printer on every canonical tree |
| GitBatch.ReadBlobs | packages/pre_p3_provenance.py:176-212 | the moving offset computes the record-by-record parse of the whole output |
| GitBatch.AcceptedExactly | packages/pre_p3_provenance.py:184-212 | the accepted outputs are exactly the printed records of the blobs, up to the spelling of each size |
| GitBatch.BatchRoundTrip | packages/pre_p3_provenance.py:176-212 | for any blobs, with newlines or empty, parsing the printed records returns them exactly when every length has at most 4300 digits, the interpreter's conversion limit, and is refused otherwise |
| GitBatch.TrailingRefused | packages/pre_p3_provenance.py:210-211 | anything after an accepted output is refused |
| GitBatch.TruncatedRefused | packages/pre_p3_provenance.py:188-209 | every proper prefix of a printed output is refused, whatever the blob lengths |
| GitBatch.UnreadableRefused | packages/pre_p3_provenance.py:192-197 | with a size text that does not convert, neither the output nor any prefix of it is accepted |
| SourceClosure.ClosurePreimage | packages/pre_p3_provenance.py:308-328 | the accumulated preimage is the header and the frames of the entries that are not outputs |
| SourceClosure.FrameDecodes | packages/pre_p3_provenance.py:323-327 | two frames followed by anything agree only if the entries and what follows agree |
| SourceClosure.StreamInjective | packages/pre_p3_provenance.py:316-327 | equal streams come from equal entry lists |
| SourceClosure.PreimageDeterminesContent | packages/pre_p3_provenance.py:308-328 | equal preimages give the same map from path to mode and bytes over the included entries, under any two exclusion rules |
| SourceIdentity.ReadTreeIsCanonical | packages/pre_p3_provenance.py:149-173 | what the two readers return for a tree has strictly ascending paths |
| SourceIdentity.AncestorShallower | packages/pre_p3_provenance.py:351-364 | an ancestor is the commit itself or strictly shallower: the termination measure of the identity |
| SourceIdentity.CanonicalSourceIdentity | packages/pre_p3_provenance.py:331-379 | the recursive computation with its loops returns the identity, and terminates on ancestry |
| SourceIdentity.BoundIff | packages/pre_p3_provenance.py:349-372 | a receipt is bound exactly when it names the identity of an ancestor that carries no unbound receipt and covers the same entries |
| SourceIdentity.SameSourcesSameCover | packages/pre_p3_provenance.py:252-305 | trees that differ only in excluded outputs cover the same entries |
| SourceIdentity.DescendantKeepsClosure | packages/pre_p3_provenance.py:331-379 | a descendant changing only validated outputs, with a receipt naming exactly the identity of a commit without an unbound receipt, has its closure |
| SourceIdentity.OriginIsReceiptFree | packages/pre_p3_provenance.py:331-379 | over any history, following receipts from a commit without an unbound receipt ends at an ancestor with no receipt, the same covered entries and the same closure |
| SourceIdentity.ClosureMeansSameSources | packages/pre_p3_provenance.py:308-379 | two commits have the same closure exactly when they agree on carrying an unbound receipt and cover the same entries |
| ZipLayout.LocateEocd | scripts/build_nautilus_engine.py:3930-3990 | the tail search finds an offset exactly when one offset anywhere in the file carries the signature with a comment ending the file |
| ZipLayout.CheckExtras | scripts/build_nautilus_engine.py:3993-4007 | accepted exactly when the bytes are a sequence of extra fields, none of them ZIP64 |
| ZipPreflight.ReadDirectory | scripts/build_nautilus_engine.py:4034-4121 | returns the entries if the range is a directory, and None only if no entry list makes it one |
| ZipPreflight.DirectoryUnique | scripts/build_nautilus_engine.py:4034-4121 | a byte range is a directory in at most one way |
| ZipPreflight.LayoutUnique | scripts/build_nautilus_engine.py:4010-4185 | a file has at most one layout, so the accepted reading is the only one |
| ZipPreflight.CheckLocals | scripts/build_nautilus_engine.py:4122-4184 | accepted exactly when the local regions fill the space before the directory, each matching its entry |
| ZipPreflight.Preflight | scripts/build_nautilus_engine.py:4010-4185 | accepts exactly the payloads that have a layout and returns its exact count and sums |
| ZipPreflight.LayoutTiles | scripts/build_nautilus_engine.py:4120-4184 | local regions, directory entries and end record tile the file |
| ZipPreflight.EveryByteOnce | scripts/build_nautilus_engine.py:4010-4185 | every byte of an accepted archive lies in exactly one region |
| ZipPreflight.RegionsMatchEntries | scripts/build_nautilus_engine.py:4122-4184 | local regions and directory entries correspond one to one |
| ArchivePaths.ArchiveRegistry.Register | scripts/build_nautilus_engine.py:1932-1954 | a path is taken exactly when the registry admits it; the registry then holds exactly the paths so far, and a refusal changes nothing |
| ArchivePaths.ArchiveRegistry.RegisterAll | scripts/build_nautilus_engine.py:1932-1954 | a whole archive is accepted exactly when its paths are pairwise compatible |
| ArchivePaths.AdmitsIffCompatible | scripts/build_nautilus_engine.py:1940-1950 | the dictionary test against the paths held is the pairwise test |
| ArchivePaths.OrderIrrelevant | scripts/build_nautilus_engine.py:1932-1954 | neither acceptance nor the final registry depends on member order |
| DiagnosticNames.DiagnosticMemberName | scripts/build_nautilus_engine.py:4224-4242 | the binary search keeps the longest prefix that fits with its digest tag; a name that fits is unchanged |
| DiagnosticNames.ShortenedNamesDiffer | scripts/build_nautilus_engine.py:4228-4242 | two shortened names that read alike are the same name |
| TwoBuild.InvStep | scripts/build_nautilus_engine.py:3530-3657 | every step of concurrent build processes keeps the invariant |
| TwoBuild.RunKeeps | scripts/build_nautilus_engine.py:2816-2913 | along every interleaving nothing published is replaced or removed |
| TwoBuild.ArtifactsAreReproduced | scripts/build_nautilus_engine.py:4798-4944 | artifacts exist only beside two builds with equal wheels and cores, distinct process and source identities and the same authority receipt, and never beside a forensic pair |
| TwoBuild.BuildPublishedOnce | scripts/build_nautilus_engine.py:3530-3657 | in any run Build A and Build B are each published at most once |
| TwoBuild.ArtifactsPublishedOnce | scripts/build_nautilus_engine.py:3769-3834 | in any run the artifacts are published at most once |
| TwoBuild.RetentionPublishesNothing | scripts/build_nautilus_engine.py:3837-3915 | a run that retains a raw wheel pair publishes artifacts neither before nor after |
| TwoBuild.StoppedOwnerIsFinal | scripts/build_nautilus_engine.py:1776-1789 | once Build B's publisher has stopped without artifacts, no continuation produces them |
| CandidateRoots.CandidateRoot.BuildCandidateA | scripts/build_nautilus_engine.py:4762-4795 | exactly when Build A is published, and what; every other directory unchanged |
| CandidateRoots.CandidateRoot.BuildCandidateB | scripts/build_nautilus_engine.py:4798-4944 | exactly when the call succeeds, and exactly what it leaves in Build B, the artifacts and the forensic root in every case |
| SemanticPublication.DecisionMeaning | scripts/build_phase4_semantic_manifest.py:327-364 | against a record this program wrote, the decision is idempotent for the same plan, fresh for a later plan of another version, and refusal otherwise |
| SemanticPublication.HistoryRises | scripts/build_phase4_semantic_manifest.py:355-364 | generation times rise strictly over the whole history of activations |
| SemanticPublication.SemanticStore.WriteAuthorityFile | scripts/build_phase4_semantic_manifest.py:229-241 | exclusive creation with any failure keeps the store valid and every existing file |
| SemanticPublication.SemanticStore.StageInputs | scripts/build_phase4_semantic_manifest.py:744-766 | the snapshot directory with its six files, or a recorded part of it, under any failure |
| SemanticPublication.SemanticStore.CleanupVersion | scripts/build_phase4_semantic_manifest.py:505-540 | removes at most the named directory, wholly so when no removal fails, whatever happened while creating it |
| SemanticPublication.SemanticStore.Activate | scripts/build_phase4_semantic_manifest.py:782-789 | the rename appends one activation or changes nothing |
| SemanticPublication.SemanticStore.Rollback | scripts/build_phase4_semantic_manifest.py:790-808 | cleanup removes nothing that existed before the call, apart from a file that already had the temporary record's name; it restores the directories when nothing was torn and no removal fails |
| SemanticPublication.SemanticStore.ValidatePublication | scripts/build_phase4_semantic_manifest.py:435-502 | the exact-publication check passes exactly when the active record and everything it names are as recorded |
| SemanticPublication.SemanticStore.Apply | scripts/build_phase4_semantic_manifest.py:628-815 | under any failures the active record is the last activation, everything any activation named is still present as recorded, times rise and adjacent versions differ, and only this plan's names can be new; without failures, exactly when a call is refused, idempotent or published; refusals and idempotent calls change nothing |
| EvidenceTree.ParentFirst | scripts/check_artifact_firewall.py:1731-1747 | in depth order a needed directory comes after its parent |
| EvidenceTree.CandidateTree.Build | scripts/check_artifact_firewall.py:1723-1760 | the builder succeeds exactly on non-nesting payloads, and then holds exactly the payloads and their directories |
| EvidenceTree.CollectParents | scripts/check_artifact_firewall.py:1731-1739 | every proper parent of every payload path is collected, each once |
| EvidencePublication.JoinSplits | scripts/check_artifact_firewall.py:1741-1752 | joining the components of a name gives the name back, so distinct names are distinct paths |
| EvidencePublication.EvidenceRoot.BuildAndRead | scripts/check_artifact_firewall.py:1977-1994 | the tree read back is the set it was built from, exactly when no name runs through another |
| EvidencePublication.EvidenceRoot.Publish | scripts/check_artifact_firewall.py:1917-2047 | exactly when a set is published: the destination is absent, no rival publishes first, and the staged files are sealable; then it is the derived set, passes the validator and carries the caller's identity; an existing or rival destination is never replaced |
| EvidencePublication.EvidenceRoot.Seal | scripts/check_artifact_firewall.py:1959-1996 | the derived set is built, read back and validated exactly when the layout and identity are accepted and no path nests |
| EvidencePublication.ValidatePublished | scripts/check_artifact_firewall.py:2993-3030 | the published check passes exactly on an accepted set with the expected head, source tree and projection |
| Checksums.ChecksumBytes | scripts/check_artifact_firewall.py:1910-1914 | the index text depends only on the files, not on the order they are enumerated in |
| Checksums.IndexParses | scripts/check_artifact_firewall.py:2953-2964 | splitting and matching the printed index returns each digest and name in order |
| Checksums.ReadEntries | scripts/check_artifact_firewall.py:2958-2964 | the line loop returns the entries exactly when every line is well formed and no name repeats |
| Checksums.CheckIndex | scripts/check_artifact_firewall.py:2953-2973 | accepted exactly when every name is safe and the text is byte for byte the publisher's |
| EvidenceSet.ListItems | scripts/check_artifact_firewall.py:2926-2944 | the entry loop passes exactly when every entry is well shaped and no path repeats |
| EvidenceSet.CheckFiles | scripts/check_artifact_firewall.py:2926-2952 | accepted exactly when each payload is listed once with its digest and size and passes the scan |
| EvidenceSet.ValidateComplete | scripts/check_artifact_firewall.py:2891-2974 | the validator accepts exactly the sets with a bound manifest, an exact file list and the publisher's checksum index |
| EvidenceSet.MakeManifest | scripts/check_artifact_firewall.py:1876-1907 | refused exactly on a conflicting source-tree binding; otherwise the manifest, whatever the enumeration order |
| EvidenceSet.PublisherAgreesWithValidator | scripts/check_artifact_firewall.py:1964-1975 | the derived set passes the complete validator exactly when no payload name is reserved, every name is safe and relative, every payload passes the scan, and the identity and projection are well formed |
| EvidenceSet.IndexDeterminesSet | scripts/check_artifact_firewall.py:2968-2973 | two accepted sets with the same checksum index are byte for byte the same set, unless two files of the same name in them are a hash collision |
| SecretKeys.Walk.Visit | packages/deployment_evidence.py:101-118 | the walk terminates on any graph; raising means a secret-like key is reachable, returning means every new node is clean with its children visited |
| SecretKeys.DoneCoversPaths | packages/deployment_evidence.py:101-118 | when every visited node is done, no path from a visited node reaches a secret-like key |
| SecretKeys.RejectSecretLikeKeys | packages/deployment_evidence.py:101-118 | raises exactly when some mapping reachable from the root, through cycles and sharing, has a secret-like string key |
| Documents.DocumentRegistry.Register | packages/data_documents.py:56-99 | exactly when a registration is accepted; it appends one record and refusals change nothing |
| Documents.DocumentRegistry.Search | packages/data_documents.py:129-138 | the hit loop computes the ranked, limited search; a query without terms or a bad limit is refused |
| Documents.SearchReturnsBest | packages/data_documents.py:129-138 | a search returns relevant visible documents only, best first, and omits none better than one it returns |
| Documents.SearchDependsOnSet | packages/data_documents.py:101-107 | search depends only on the set of documents ingested by the cutoff, not on registration order |
| Documents.LaterRegistrationInvisible | packages/data_documents.py:101-107 | a document ingested after the cutoff changes no search at it |
| Documents.SmallerLimitIsPrefix | packages/data_documents.py:138-138 | results for a smaller limit are a prefix |
| Documents.BenchmarkRetrieval | packages/data_documents.py:141-157 | the case loop computes recall and mean reciprocal rank; refused exactly on no cases, a bad k or an unanswerable query |
| Documents.BenchmarkBounds | packages/data_documents.py:146-157 | for every case list recall / k <= mean reciprocal rank <= recall <= 1 |
| Documents.MonotoneInK | packages/data_documents.py:146-157 | recall and reciprocal rank are monotone in k |
| Normalization.NormalizePriceQuantity | packages/data_normalization.py:62-108 | the loop computes the fold over the sorted factors in force; duplicates and non-positive values are refused, RAW passes through |
| Normalization.NormalizationDependsOnFactorsInForce | packages/data_normalization.py:81-104 | for any rounded product the result depends only on the set of factors in force |
| Normalization.PermutationIrrelevant | packages/data_normalization.py:81-104 | permuting the factor tuple changes neither the result nor whether it is refused |
| Ordering.SortCanonical | packages/data_normalization.py:87-98 | with distinct keys a stable sort depends only on the elements |

## Left out

- File metadata (owner, mode, inode, `O_NOFOLLOW`, fsync): a publish is one atomic step and a protected read returns the current bytes.
- SHA-256, canonical JSON and Git: free constructors, or given functions with the stated hypotheses; the commit graph is given, with a depth that falls from child to parent.
- A commit's name appearing inside its own tree: excluded by hypothesis in `GraphOk`, since the name is a hash over the tree; the recursion of the identity would otherwise not end.
- Output validators behind `_excluded_output`, the receipt decoder, path normalization and secret-like key matching: given predicates, so the theorems hold for any of them.
- Timestamp parsing and `_deadline_ns`: times are numbers.
- Admission tokens, the prerequisite digest and the identity fields of an admission record beyond those compared.
- AuthorityStores.AuthorityStore.AdmitAction: the order in which gates are read and bundle members are written is left open, since the source's fixed order is one instance.
- `apply` is one effect event and `prepare` a function of the snapshot; neither re-enters the store.
- ZipPreflight.Preflight: all refusals are one None; which message is raised is not modelled.
- ZipPreflight.Preflight: decompression and member name decoding are outside the preflight.
- ArchivePaths.ArchiveRegistry.RegisterAll: folding acts component by component, on any function of a component.
- CandidateRoots.CandidateRoot.BuildCandidateB: the sandboxed build is an input; the authority receipt's digest and the fields copied from it are one value; tampering by the owner of the private candidate root between two reads is not modelled, so the re-read comparisons always pass.
- CandidateRoots.CandidateRoot.BuildCandidateA: a failure inside staging counts as the process stopping, with or without removal of its staging directory.
- SemanticPublication.SemanticStore.Apply: source file attestations, directory identity checks and the shape checks of a foreign active record are not modelled; only this program writes the active record.
- SemanticPublication.SemanticStore.Apply: a temporary record whose random name already exists is removed by cleanup, as in the source, so what is kept is stated apart from that one name.
- EvidencePublication.EvidenceRoot.Publish: file modes and tree identities are not modelled, and nobody alters a tree between two reads of it, so the re-reads see the same bytes. Staged names come from a directory listing and so have no "." component.
- Documents.DocumentRegistry.Search: term extraction is any function from text to a set of terms.
- Normalization.NormalizePriceQuantity: decimal arithmetic is any partial product on reals; factor strings and times are taken as already validated.
- DiagnosticNames.ShortenedNamesDiffer: a short name that is literally another name's shortened form reads the same; only shortened names are told apart.
- SecretKeys.RejectSecretLikeKeys: Python's recursion limit is not modelled.
- ELF parsing, sandboxed builds, toolchain materialization, command lines, dashboards, PostgreSQL and network acquisition.
- Field-set and pattern validators of `packages/hwc_status.py`, `packages/project_status.py` and `packages/p3_provenance.py`: each decides one document by itself, field by field.
- `resolve_promotion_decision`: a constant.
- `packages/data_projections.py`: its order is textual, and no chronological claim is made for it.
