# Harbor Transfer Portal: a Dafny model of its transfer guarantees

The portal exports container images and Helm charts from a SOURCE registry into a signed bundle, carries the
bundle across, and imports it into a TARGET registry. This project models the parts that decide whether that is
safe, and proves what they promise.

* **Bundles** (`Text`, `PosixPath`, `BundleNames`, `ChecksumFile`, `BundleArchive`, `BundleManifest`,
  `BundleVerification`, `BundleSafety`, `BundleDelivery`, `BundleBuild`, `BundleSelfCheck`, `BundleExamples`): an
  archive is a sequence of tar members; the verifier's checks are predicates with the methods that compute them. Only `manifest.json` is signed, yet it
  pins every payload byte of an archive that can be unpacked. A build passes its own verifier under an exact
  condition on its inputs.
* **Import** (`DestinationPlan`, `MappingSnapshot`, `ImportRun`): planning TARGET coordinates, collisions, the plan
  identity, projection onto the signed manifest, and the worker: its check of the stored bundle, then the loop
  against a live registry that may fail at any artifact.
* **Trusted keys** (`TrustedKeys`, `TrustedKeyCrashes`): a directory of `.pem` and `.disabled` files as a map from
  fingerprint to enabled, through every intermediate file step, and over runs in which requests are cut short.
* **Publication and export** (`Publication`, `LoneBuilder`, `ExportRun`, `ExportRecovery`): interleaved builders of one
  delivery id, each step of which may fail before or after its effect or be its process's last; the export worker
  with its cleanup; start-up recovery.
* **Stateful guards** (`LoginThrottle`, `HarborSearch`, `HarborProfiles`, `OperationStates`).

Loops and objects that change state are methods and classes proved against specification functions; what the
portal promises is proved about those functions as lemmas. JSON, signatures, tar and gzip encoding, registries,
clocks and the file system appear as parameters. SHA-256 is a function parameter assumed collision-free only on the
finite set of texts a statement compares, because a function into 64 hexadecimal digits cannot be injective.

## Where the code does not keep a claim

Each of these is proved with its exact condition, and with a concrete input or run where a condition alone would
not show that the case occurs.

* A bundle whose chart file has another file below its own path passes preview verification, and then two payloads
  fit one manifest (`FormConfusion`); unpacking rules this out (`ManifestPinsArchive`).
* A build does not always verify: an empty directory inside an image snapshot, or a file name with a line boundary
  other than `\n` and `\r`, stages without error and is refused at self-verification; so is an empty author, SOURCE address or artifact name, which
  only the JSON Schema minds (`SelfVerificationIff`, `StageableButRefused`).
* Replay of a chart without source digest ends in FAILED (`ReplayConverges`, `NoSourceDigestNoReplay`).
* The comment in `import_helm_service.py` that a digest pair from another project cannot authorise replay fails for
  a row whose source repository is spelled like the target (`PairBoundToTargetIff`, `ForeignChartTakenForSame`).
* A swallowed rename failure during key replacement can make a later add remove the replacement
  (`FailedRenameBreaksNaming`, `ReAddWipesReplacement`).
* The export cleanup is keyed by delivery id and relies on that id being unique (`CleanupNeedsUniqueId`). It looks
  only at deliveries this process recorded, so a failed export leaves its archive behind when an error follows the
  link before the record (`OrphanOccurs`), when the rollback itself fails, when an exception outside the build's own
  error type gets out after the claim, or when a second cancellation or a failing unlink cuts the cleanup short:
  exactly these cases (`WhatRemains`, `ExportWorker.Run`). When the record cannot be cleared it keeps naming the files.
* Start-up recovery removes archive and sidecar of an incomplete export exactly when its record was persisted, and
  never a handoff (`DeathThenRecovery`).
* Replacing a trusted key by a new identity keeps the number of unique keys constant at every step only if the old
  key has one file; a request cut short leaves two (`TrustedKeyStore.Replace`, `CutRunKeepsLimit`, `OverlapAfterCrash`).
* A chart version with `+` is asked for as spelled, while Helm stores it under the tag with `_`. TARGET never shows such a
  chart, so it is pushed over whatever holds that tag, overwrite or not, and its row still ends FAILED
  (`DefaultDenyIff`, `RespelledChartBreaksDefaultDeny`, `RespelledNeverCompletes`). The plan does not see the clash with
  an artifact spelled like the tag (`LandsApartIff`, `RespelledChartReplacesImage`).
* One artifact's error does not always let the import go on: an inspection error outside the caught types, such as the
  Harbor client's own, ends the run with that row PENDING (`RunGoesOnIff`).
* The login bound needs a lockout at least as long as the window (`BoundHoldsIff`); the settings do not enforce it.
* A retry is created outside the critical section of its binding check (`StaleRetryReachable`).

## Model

| member | source | states |
|---|---|---|
| PosixPath.UnderIsComponentPrefix | backend/app/services/bundle_package_service.py:1227-1228 | for canonical paths, component-wise containment and the string test "equal or starts with root/" are the same relation |
| PosixPath.OverlapIsMutualUnder | backend/app/services/bundle_package_service.py:1227-1228 | overlap of two roots means exactly that one lies under the other, so the component test and the prefix test used on checksum paths agree |
| PosixPath.SharedPathMeansOverlap | backend/app/services/bundle_package_service.py:793-842 | two roots that both select one file overlap, so accepted roots never share a file |
| PosixPath.RootOfCanonicalIsCanonical | backend/app/services/bundle_package_service.py:798-811 | a root that selects one canonical file name is itself canonical, although nothing compares payload_path with its normal form |
| PosixPath.CanonicalComponents | backend/app/domain/protocol.py:24-41 | a name is its own normal form exactly when it is relative and no component is empty or "." |
| ChecksumFile.ParseChecksums | backend/app/services/bundle_package_service.py:746-785 | accepted exactly when the text has lines, every line names a payload file - 64 hexadecimal digits, two spaces, a safe path that is no metadata name - and no two name the same; the entries are then those the lines name |
| ChecksumFile.ReadIff | backend/app/services/bundle_package_service.py:746-785 | the line-by-line reading is that condition on all lines at once, whatever the order in which lines fail |
| ChecksumFile.RoundTrip | backend/app/services/bundle_package_service.py:746-785 | reading what was written gives the same path-to-digest map if and only if no path holds one of the ten line boundaries of splitlines |
| ChecksumFile.ReadPathsAreBoundaryFree | backend/app/services/bundle_package_service.py:746-785 | every path read back is a safe name, is no metadata file and holds no line boundary |
| ChecksumFile.SerializeIsInjective | backend/app/services/bundle_package_service.py:1219-1224 | different entry lists give different text; "\n"-free paths are all this needs |
| ChecksumFile.AggregateIsInjective | backend/app/services/bundle_package_service.py:904-910 | two different sets of entries never aggregate to the same text before hashing |
| ChecksumFile.SortedEntriesRepresent | backend/app/services/bundle_package_service.py:1219-1224 | sorting the dict for writing loses and adds nothing |
| BundleArchive.ValidateArchiveMembers | backend/app/domain/protocol.py:44-80 | succeeds exactly when all names are canonical, distinct and in the layout, the three metadata files are there, and no payload directory is empty |
| BundleArchive.InspectArchive | backend/app/services/bundle_package_service.py:562-599 | succeeds exactly within all limits on allowed members, and then returns each file under its name; the error tells which limit |
| BundleArchive.ReadMembers | backend/app/services/bundle_package_service.py:576-590 | the running size limit refuses exactly when the total extracted size exceeds it |
| BundleArchive.FilesAreCanonical | backend/app/domain/protocol.py:24-41 | every payload file of an allowed archive has a canonical name below images/ or charts/ |
| BundleArchive.FileContents | backend/app/domain/protocol.py:44-80 | distinct member names make the file table exact: each file keeps its own bytes |
| BundleVerification.ValidatePayloadLayout | backend/app/services/bundle_package_service.py:787-842 | succeeds exactly when checksum paths are the payload files, no two roots overlap, every root selects something of the right shape and every file is covered |
| BundleVerification.VerifyPayloadChecksums | backend/app/services/bundle_package_service.py:844-865 | succeeds exactly when every listed file hashes to its entry |
| BundleVerification.VerifyDescriptorMetadata | backend/app/services/bundle_package_service.py:867-886 | succeeds exactly when every signed payload digest and size is the measured one |
| BundleVerification.VerifyBundle | backend/app/services/bundle_package_service.py:305-340 | accepts exactly the archives that pass every check, and returns the signed manifest and the confirming key; a refusal answers for the first check, in the order of the code, that fails |
| BundleSafety.RootsAreNormal | backend/app/services/bundle_package_service.py:793-842 | every accepted payload_path equals its normalised form |
| BundleSafety.ExactlyOneRoot | backend/app/services/bundle_package_service.py:793-842 | every payload file lies under exactly one artifact root |
| BundleSafety.SizesAddUp | backend/app/services/bundle_package_service.py:889-914 | the signed artifact sizes add up to the size of the whole payload |
| BundleSafety.AcceptedArchiveIsPartitioned | backend/app/services/bundle_package_service.py:284-361 | the three facts above for every archive the verifier accepts |
| BundleSafety.AcceptedKeepsLimits | backend/app/services/bundle_package_service.py:562-599 | an accepted archive has at most the member count, its files weigh at most the byte limit and at most the compression ratio times the archive size, no metadata file is over its limit, and the archive is not empty and not over its own |
| BundleSafety.ExtractedIsWeight | backend/app/services/bundle_package_service.py:576-590 | the bytes counted member by member are the weight of the file table: no file is counted twice or left out |
| BundleSafety.AcceptedMembersAreSafe | backend/app/domain/protocol.py:24-80 | every member of an accepted archive is a regular file or directory under a plain relative name of its own, metadata as files, all else below images/ or charts/, and no directory is without a file |
| BundleSafety.AcceptedManifestIsTyped | backend/app/services/bundle_package_service.py:284-361 | read off the files of an accepted archive: the trusted key signed this very manifest text, the header is complete, every image is a directory below images/ and every chart a .tgz file below charts/, and the checksum file lists exactly the payload files with their digests |
| BundleSafety.ManifestInFull | backend/app/domain/bundle.py:43-103 | manifest model and schema together accept exactly a UTC header with author, SOURCE address and a comment of at most 2000 characters over at least one artifact, each with non-empty names, a well-formed digest and a relative path without ".." |
| BundleSafety.ImagesAreTrees | backend/app/services/bundle_package_service.py:813-828 | an image root always takes the aggregated-digest form |
| BundleSafety.PinnedRoot | backend/app/services/bundle_package_service.py:889-914 | equal signed digests in the same form mean equal checksum entries below the root |
| BundleSafety.ManifestPinsPayload | backend/app/services/bundle_package_service.py:787-914 | two payloads accepted under one manifest are the same paths and bytes if and only if each root is digested in the same form |
| BundleSafety.ExtractableMeansSameForms | backend/app/services/bundle_package_service.py:916-962 | without a file that is a path prefix of another, the forms always agree |
| BundleSafety.ExtractMembers | backend/app/services/bundle_package_service.py:916-962 | unpacking succeeds exactly when no member lies below a file, and then leaves every file with its own bytes and exactly the directories the members ask for |
| BundleSafety.ExtractionNeedsPrefixFree | backend/app/services/bundle_package_service.py:916-962 | what can be unpacked has no file that is a path prefix of another |
| BundleSafety.UnpackedDirectories | backend/app/services/bundle_package_service.py:936-946 | the unpacked directories are exactly those above the payload files |
| BundleSafety.ManifestPinsArchive | backend/app/services/bundle_package_service.py:284-361 | the pinning theorem for whole archives: the unsigned checksum file leaves no freedom once both archives can be unpacked |
| BundleExamples.FormConfusion | backend/app/services/bundle_package_service.py:889-914 | whenever one manifest reads back and its signature confirms, for every hash function and one-line chart root, there are two archives, metadata included, that the verifier accepts with the same signed manifest text and different payloads; only one of them can be unpacked |
| BundleDelivery.VerifyStored | backend/app/services/bundle_package_service.py:284-361 | succeeds exactly when the sidecar names this file and digest, the archive is accepted, and a requested unpacking goes to a free place without a path clash; returns manifest, key, digest and, exactly when asked to unpack, the files of the archive |
| BundleDelivery.SidecarNamesOneFile | backend/app/services/bundle_package_service.py:1026-1060 | a sidecar confirms a file if and only if name and digest are those it was written for |
| BundleDelivery.UnpackedPayloadIsSigned | backend/app/services/bundle_package_service.py:284-361 | two files, however packed or named, that verify and unpack with the same manifest bytes leave the same payload files and the same directories |
| BundleBuild.StagePayloads | backend/app/services/bundle_package_service.py:388-427 | stages exactly the inputs with valid, non-overlapping destinations and sources of the right place, kind, suffix and size, each file under its root |
| BundleSelfCheck.StageableIff | backend/app/services/bundle_package_service.py:388-457 | staging goes through exactly when each destination is a plain path of two or more components below the root of its kind, each source has the place, kind, suffix and size demanded, and no destination is or lies below another |
| BundleBuild.ChecksumPayloadFiles | backend/app/services/bundle_package_service.py:459-486 | fails exactly on an artifact without files or an unsafe name; otherwise every staged file has its digest |
| BundleBuild.BuildDescriptors | backend/app/services/bundle_package_service.py:488-516 | each descriptor carries its input and the digest and size of exactly the files below its root |
| BundleSelfCheck.MatchesAreOwnFiles | backend/app/services/bundle_package_service.py:488-516 | the checksum entries below an artifact root are exactly the files that artifact staged |
| BundleSelfCheck.PackedFiles | backend/app/services/bundle_package_service.py:518-560 | packing keeps every file and its bytes: the archive reads back as the workspace |
| BundleSelfCheck.PackedMembersAllowed | backend/app/domain/protocol.py:44-80 | a packed workspace passes the member checks exactly when no staged directory is empty |
| BundleSelfCheck.EmptyDirectoriesComeFromTrees | backend/app/services/bundle_package_service.py:429-457 | the workspace has no empty directory exactly when no image snapshot had one |
| BundleSelfCheck.DescriptorsSurvivePacking | backend/app/services/bundle_package_service.py:867-886 | descriptors measured before packing are what the verifier measures after |
| BundleSelfCheck.BuiltLayout | backend/app/services/bundle_package_service.py:787-842 | the built archive has the layout its own manifest declares |
| BundleSelfCheck.SelfVerificationIff | backend/app/services/bundle_package_service.py:205-226 | a prepared build passes its own verification if and only if members, bytes, compression ratio, archive size and metadata are within the limits, counted on the workspace, no snapshot holds an empty directory, no name holds a line boundary and no text the JSON Schema wants non-empty is empty |
| BundleSelfCheck.OnlyLimitsRemain | backend/app/services/bundle_package_service.py:205-226 | every prepared build of clean snapshots, one-line names and a schema-conform manifest is accepted under large enough limits |
| BundleSelfCheck.BuiltArchiveHoldsInputs | backend/app/services/bundle_package_service.py:518-560 | for any build that packs: each chart is at its path with its own bytes, each file of an image below its root with its own bytes, and there is no further payload file |
| BundleSelfCheck.BuiltNamesInputs | backend/app/services/bundle_package_service.py:488-516 | the manifest names the inputs in order, each field from its own input; a chart carries the digest and length of its bytes, an image the digest of its listing and the weight of its files |
| BundleSelfCheck.BuildBundle | backend/app/services/bundle_package_service.py:187-223 | which step refuses is exact for every step; with a coherent signer the build succeeds exactly on buildable inputs; a built archive holds the inputs byte for byte and nothing else, and its manifest names them with their measured digests and sizes |
| BundleExamples.OneFileVerifiesIff | backend/app/services/bundle_package_service.py:128-226 | an image of one file and some directories passes every step before verification, and then verifies if and only if it is within the limits, has no directory, its file name no line boundary, and author and SOURCE address are not empty |
| BundleExamples.StageableButRefused | backend/app/services/bundle_package_service.py:128-226 | three concrete builds, an empty directory, a name with a vertical tab and an empty author, pass every step before verification and are then refused for every archive size; without the defect the build is accepted under roomy limits |
| OperationStates.RankRises | backend/app/domain/operations.py:3-93 | every legal run moves strictly forward, so no status repeats |
| OperationStates.RunsEnd | backend/app/domain/operations.py:67-93 | a terminal status is the last of its run, and a run has at most seven |
| OperationStates.CompletedThroughVerification | backend/app/domain/operations.py:3-65 | COMPLETED is only reached from the last verifying status |
| DestinationPlan.CollidingIndices | backend/app/services/destination_plan_integrity.py:108-122 | returns exactly the indices of artifacts whose coordinate another artifact shares |
| DestinationPlan.BuildPlan | backend/app/services/import_destination_plan.py:214-283 | plans every artifact by the rules - its project by override, mapping or the default of its kind, its path, reference and answer of TARGET - marks exactly the colliding ones and is valid exactly when all are importable |
| DestinationPlan.FollowsRules | backend/app/services/import_destination_plan.py:285-510 | one artifact, rule by rule: a non-empty override at its index is its project, else the mapping of the first component of its repository, else the default of its kind; path, display and error follow from that and from what TARGET answered |
| DestinationPlan.DefaultsAreApart | backend/app/services/import_destination_plan.py:313-347 | the chart default never changes a planned image, nor the image default a chart |
| DestinationPlan.OverrideIsLocal | backend/app/services/import_destination_plan.py:313-347 | an override changes no artifact of another index |
| DestinationPlan.CollisionIff | backend/app/services/destination_plan_integrity.py:91-122 | with indices as the preview gives them, an artifact is a collision exactly when another one has its registry repository and reference |
| DestinationPlan.ValidIffDistinct | backend/app/services/import_destination_plan.py:227-281 | a plan is valid if and only if every artifact is importable on its own and all registry coordinates are pairwise different, images and charts together |
| DestinationPlan.TargetSplits | backend/app/services/import_destination_plan.py:347-347 | the target path is the target project followed by the source path below its project, and is always a valid repository |
| DestinationPlan.ImagesCollideByMerging | backend/app/services/import_destination_plan.py:313-347 | two images from different sources share a coordinate only if different source projects were mapped to one target project |
| DestinationPlan.MappedRepositoriesAgree | backend/app/services/import_destination_plan.py:313-347 | mapped repositories agree exactly when target project and source path below the project agree |
| DestinationPlan.PlanIdIgnoresTarget | backend/app/schemas/imports.py:152-204 | missing project, denied push, inspection error or collision: no TARGET answer changes the plan id |
| DestinationPlan.IdentityAcrossHosts | backend/app/services/import_destination_plan.py:394-398 | only the displayed reference depends on the registry host, and it names the host in full; coordinates do not depend on it |
| DestinationPlan.RetryReproducesPlanId | backend/app/services/import_retry.py:186-202 | a retry with the frozen mapping gives the original plan id if and only if the registry host is the same or no artifact has a final reference |
| DestinationPlan.ProjectVerifiedBundle | backend/app/services/import_destination_plan.py:676-763 | projects exactly a plan that names the signed artifacts in order, each with kind, repository, names and digest as signed; every descriptor then carries its planned repository and the rest of its payload unchanged |
| DestinationPlan.LandsApartIff | backend/app/services/destination_plan_integrity.py:91-105 | coordinates that are apart land apart in the registry if and only if no chart whose version has a "+" shares its tag, spelled with "_", with another artifact; always when no version has one |
| DestinationPlan.ProjectionWritesApart | backend/app/services/import_destination_plan.py:676-763 | the projected descriptors of a valid plan write pairwise different coordinates |
| MappingSnapshot.ArtifactRows.Persist | backend/app/services/artifact_mapping_snapshot.py:11-56 | every pair is validated before any row is written: all rows get their snapshot, field by field the one planned, or none changes |
| MappingSnapshot.ArtifactRows.RetryRowsMatch | backend/app/services/import_retry.py:93-110 | accepts exactly rows whose persisted snapshot names this plan, source and final target |
| MappingSnapshot.RetryReadsSnapshotBack | backend/app/services/import_retry.py:93-110 | a persisted snapshot satisfies the retry check for its plan, and only for plans with the same id, hash, source and targets |
| MappingSnapshot.ImportableIsStampable | backend/app/services/artifact_mapping_snapshot.py:84-93 | an importable planned artifact always has the complete TARGET the snapshot needs |
| ImportRun.ImportWorker.ImportArtifact | backend/app/services/import_orchestrator.py:577-687 | one turn of the loop, rule by rule: a cancellation or escaping inspection stops, an inspection error fails, a digest as signed or a known pair is skipped, another is pushed over, skipped or a CONFLICT as the policy says, and a push counts only if confirmed with the right digest |
| ImportRun.TurnFollowsRules | backend/app/services/import_orchestrator.py:577-687 | the specified turn follows the same rules, each naming row, count, progress and the digest at the place |
| ImportRun.ImageEnds | backend/app/services/import_orchestrator.py:577-687 | over a whole unstopped run, from what TARGET held before it: another digest ends CONFLICT, or SKIPPED without being counted if conflicts are to be skipped, and stays; an absent one, or with overwrite any other, ends VERIFIED exactly if the push wrote the signed digest and saw it confirmed |
| ImportRun.ImagesCompleteIff | backend/app/services/import_orchestrator.py:577-696 | an unstopped import of images is COMPLETED exactly if the receipt was stored and every image was there, skipped by policy, or pushed and confirmed; otherwise FAILED |
| ImportRun.ConflictFailsRun | backend/app/services/import_orchestrator.py:605-624 | without overwrite or skipping, one image whose place holds another digest makes an unstopped run end FAILED |
| ImportRun.ImportWorker.Run | backend/app/services/import_orchestrator.py:507-696 | the checks before the loop and the loop end in the state the gate and the turns define, with a legal status history: CANCELLED exactly after a cancellation, COMPLETED exactly when not stopped, nothing failed and the receipt is stored, else FAILED; a receipt exactly when not stopped |
| ImportRun.MutationNeedsPreviewedBundle | backend/app/services/import_orchestrator.py:507-560 | no artifact is started and TARGET is untouched unless the stored archive hashed, verified and unpacked as the digest and delivery of the preview, with the right number of artifacts; otherwise the run ends FAILED or CANCELLED |
| ImportRun.TurnWritesOwnCoordinate | backend/app/services/import_orchestrator.py:577-687 | one artifact writes at most its own place, deletes nothing, and replaces a digest only with overwrite on a CONFLICT, or as a chart with a "+" in its version, which TARGET never shows |
| ImportRun.DefaultDeny | backend/app/services/import_orchestrator.py:577-687 | for every bundle, registry and failure pattern: without overwrite no digest present before changes but where a chart with a "+" in its version lands; with overwrite, and artifacts landing apart, only there and where an artifact found a CONFLICT |
| ImportRun.DefaultDenyIff | backend/app/services/import_orchestrator.py:577-687 | without overwrite, no circumstances can change a digest present before the run if and only if the bundle is not opened or no chart with a "+" in its version lands on one |
| ImportRun.TurnDeniesIff | backend/app/services/import_orchestrator.py:577-687 | the same for one turn, digests the run itself put there included |
| ImportRun.ShownWhereItLands | backend/app/services/helm_oci_service.py:507-520 | an artifact with an accepted reference is seen exactly where its push lands, but a chart with a "+" in its version is never seen |
| ImportRun.RespelledNeverVerified | backend/app/services/helm_oci_service.py:318-374 | whatever happens, a chart with a "+" in its version ends PENDING or FAILED |
| ImportRun.RespelledNeverCompletes | backend/app/services/helm_oci_service.py:318-374 | so no import of a bundle with such a chart completes |
| ImportRun.RespelledChartBreaksDefaultDeny | backend/app/services/helm_oci_service.py:318-374 | such a chart alone, without overwrite, replaces the digest at its tag, and the run ends FAILED |
| ImportRun.RunGoesOnIff | backend/app/services/import_orchestrator.py:577-687 | the loop reaches its end if and only if the bundle was opened and no artifact met a cancellation, an inspection error the loop does not catch, or an aborted push |
| ImportRun.TurnGoesOnIff | backend/app/services/import_orchestrator.py:577-587 | the same for one artifact; an escaping inspection leaves its row PENDING and everything else as it was |
| ImportRun.OutsidePlanUntouched | backend/app/services/import_orchestrator.py:577-687 | coordinates outside the plan are exactly as before |
| ImportRun.Accounting | backend/app/services/import_orchestrator.py:558-696 | an unstopped run settles every row, counts exactly FAILED and CONFLICT, reports all progress, and completes exactly when that count is zero and the receipt is stored |
| ImportRun.RunsForward | backend/app/domain/operations.py:31-93 | every run, cancelled or not, moves legally and strictly forward to a terminal status |
| ImportRun.RowsMatchRegistry | backend/app/services/import_orchestrator.py:598-680 | at the end a VERIFIED or SKIPPED row names the digest the registry holds there; for an image imported or found in place it is the signed one |
| ImportRun.RecordedPairMatches | backend/app/services/import_helm_service.py:100-144 | a VERIFIED chart leaves a digest pair that authorises replay at its mapped target |
| ImportRun.ReplayConverges | backend/app/services/import_orchestrator.py:598-605 | rerunning the same plan leaves a VERIFIED artifact's place alone and, once its turn is over, SKIPs it, exactly unless its inspection fails or it has no source digest; covers charts whose TARGET digest differs |
| ImportRun.NoSourceDigestNoReplay | backend/app/services/import_orchestrator.py:630-639 | a chart without source digest imports and completes once, and fails on replay |
| ImportRun.PairBoundToTargetIff | backend/app/services/import_helm_service.py:100-144 | the documented rule that a pair from another project cannot authorise replay holds exactly when no verified row's source repository is spelled like the target, unless the pair was verified there as well |
| ImportRun.PairMatchesMeans | backend/app/services/import_helm_service.py:100-195 | a digest pair is known for a target exactly if an operation verified it in a row whose own repository is the target, or whose receipt lists that repository, verified with the same pair, under the target |
| ImportRun.ForeignChartTakenForSame | backend/app/services/import_helm_service.py:119-122 | a whole run that ends COMPLETED with a chart SKIPPED although its pair was verified only at another target |
| ImportRun.ValidPlanWritesApart | backend/app/services/import_destination_plan.py:676-763 | from a valid plan to the engine: one import never writes a coordinate twice, and never one registry tag twice exactly when no chart version with a "+" takes the place of another artifact |
| ImportRun.RespelledChartReplacesImage | backend/app/services/destination_plan_integrity.py:91-122 | chart p/app 1.0.0+b and image p/app:1.0.0_b, apart in the plan and imported together, with overwrite or without: the chart replaces the VERIFIED image and the run ends FAILED |
| TrustedKeys.Matches | backend/app/services/key_management.py:605-616 | the files holding a key, enabled ones first: empty exactly when the key is not held |
| TrustedKeys.ViewUpdateIff | backend/app/services/key_management.py:281-305 | one rewrite is the obvious map update exactly when the canonical names it clears held no other key's last file |
| TrustedKeys.TrustedKeyStore.Add | backend/app/services/key_management.py:281-305 | adds within the limit, refuses an unreadable store, and keeps the key enabled and the limit kept at every intermediate file step |
| TrustedKeys.TrustedKeyStore.SetEnabled | backend/app/services/key_management.py:433-461 | sets the state of a held key, which stays held at every step |
| TrustedKeys.TrustedKeyStore.Remove | backend/app/services/key_management.py:463-474 | every file of the key and its canonical names go |
| TrustedKeys.TrustedKeyStore.Replace | backend/app/services/key_management.py:343-431 | the new key is held at every file step and enabled whenever old or new was; active files never increase for a new identity; unique keys exceed the old number, by one, exactly when a new identity takes over one of several files |
| TrustedKeys.TrustedKeyStore.ReplaceInSlot | backend/app/services/key_management.py:398-431 | takeover of a slot, rename and cleanup lead to the specified directory through safe states only |
| TrustedKeys.AddView | backend/app/services/key_management.py:281-305 | add is the map update exactly when the key's canonical names are spare |
| TrustedKeys.SetEnabledView | backend/app/services/key_management.py:433-461 | enable/disable is the map update under the same exact condition |
| TrustedKeys.RemoveView | backend/app/services/key_management.py:463-474 | remove is map removal under the same exact condition |
| TrustedKeys.ReplaceView | backend/app/services/key_management.py:343-431 | replace carries "previous or replacement" enabledness, with or without the rename, under the same exact condition |
| TrustedKeys.NextRefines | backend/app/services/key_management.py:281-474 | on a canonically named directory each request is the request on its map, failed rename or not |
| TrustedKeys.RunRefines | backend/app/services/key_management.py:281-474 | over every run without a failed final rename the directory behaves like a map of fingerprints to enabled |
| TrustedKeys.RunKeepsLimit | backend/app/services/key_management.py:285-291 | over every run, odd names and failed renames included, unique keys stay within the limit |
| TrustedKeys.FailedRenameBreaksNaming | backend/app/services/key_management.py:409-418 | a swallowed rename failure breaks canonical naming exactly when the slot was the previous key's canonical file |
| TrustedKeys.ReAddWipesReplacement | backend/app/services/key_management.py:281-305 | after such a failure, adding the old key back removes the key that replaced it |
| TrustedKeys.TrustedPublicKey | backend/app/services/key_management.py:307-336 | finds a key exactly when the view shows it, enabled if that is required |
| TrustedKeys.LoadTrustedKeys | backend/app/services/bundle_package_service.py:1074-1103 | the keys the verifier loads are exactly the enabled ones of the view |
| TrustedKeyCrashes.OpsReach | backend/app/services/key_management.py:281-474 | the file operations the store performs for a request, all done, have its specified effect; each method's history of states is exactly theirs |
| TrustedKeyCrashes.AttemptIsState | backend/app/services/key_management.py:281-474 | a request cut short leaves the state after its last operation, nothing else |
| TrustedKeyCrashes.CutRunKeepsLimit | backend/app/services/key_management.py:285-291 | over every run in which any request may stop after any file operation, the unique keys exceed the limit at most by the replacements cut short while two identities overlapped, hence by the requests cut short |
| TrustedKeyCrashes.UncutRunIsRun | backend/app/services/key_management.py:281-474 | with nothing cut short it is the run of finished requests |
| TrustedKeyCrashes.OverlapAfterCrash | backend/app/services/key_management.py:398-408 | that bound is met: a disable request cut after its write leaves two files, and replacing that key, cut after its write, leaves two keys with a limit of one |
| Publication.StepIsSafe | backend/app/services/export_publication_guard.py:55-121 | every step of every builder, failing or not, keeps the directory consistent and touches only that builder's files, replacing nothing |
| Publication.AnyStepReplacesNothing | backend/app/services/export_publication_guard.py:55-163 | from any directory, consistent or not, no step puts one file in the place of another, and no id is reserved or claimed that already is |
| Publication.RunIsConsistent | backend/app/services/export_publication_guard.py:55-121 | under any interleaving a visible sidecar or handoff names the visible archive |
| Publication.NeverReplaced | backend/app/services/export_publication_guard.py:43-101 | an archive in place, with its sidecar, stays while only other builders act |
| Publication.PublishedForGood | backend/app/services/bundle_package_service.py:164-256 | what a builder reported as published stays published whatever all builders do |
| Publication.BaseReplacesPublished | backend/app/services/bundle_package_service.py:980-1007 | with os.replace a second builder, checked before the first reserved, replaces a published archive; linking without replacing stops the same schedule |
| Publication.FromConsistentStart | backend/app/services/export_publication_guard.py:55-121 | from any consistent directory the two facts above hold for every schedule |
| Publication.ForeignFilesSurvive | backend/app/services/export_publication_guard.py:157-207 | with one builder per delivery id, files that were there before survive everything it and its cleanup do |
| Publication.CleanupTouchesIff | backend/app/services/export_publication_guard.py:184-203 | a cleanup changes a file if and only if the id is marked owned and one of its files is there, whoever made it |
| Publication.CleanupNeedsUniqueId | backend/app/services/export_publication_guard.py:184-203 | with a second builder of the same id, its cleanup deletes the first one's published delivery |
| LoneBuilder.BuildIsRun | backend/app/services/export_publication_guard.py:43-121 | the lone builder is the publication protocol with turns of one builder only |
| LoneBuilder.BuildIsExplained | backend/app/services/export_publication_guard.py:43-121 | after every schedule, deaths included, archive and mark are exactly what the failed and worked steps say |
| LoneBuilder.WhatRemains | backend/app/services/bundle_package_service.py:164-256 | over every schedule of failing steps and every extent of the cleanup: the archive remains if and only if it was linked and not claimed, or not claimed and not rolled back, or stands claimed and was not completely cleaned up; the build returns exactly when every step worked |
| LoneBuilder.FullSweepIsMove | backend/app/services/export_publication_guard.py:184-203 | a cleanup with all its unlinks done, after a build that has ended, is the cleanup move of the interleaved protocol |
| LoneBuilder.OrphanOccurs | backend/app/services/export_publication_guard.py:43-53 | an error behind the link leaves the archive in place, refused by the build and untouched by the cleanup |
| LoneBuilder.BuildKeepsForeign | backend/app/services/bundle_package_service.py:164-172 | on an id that is not free the build touches nothing |
| ExportRun.ExportWorker.Run | backend/app/services/export_orchestrator.py:364-465 | for every schedule of the build, in the terms of what went wrong: which of COMPLETED, FAILED and CANCELLED it ends in, the status of every row, when the record names the files, and that nothing of its own is left after a build with its archive standing if and only if all three unlinks work, there was no second cancellation, no exception escaped an uninterrupted build, and the record could be cleared; existing files are untouched |
| ExportRun.ExportWorker.RunBuild | backend/app/services/bundle_package_service.py:164-256 | step by step, the build ends as the protocol of a lone builder does |
| ExportRun.ExportWorker.Materialise | backend/app/services/export_orchestrator.py:390-433 | a typed failure at any artifact leaves all FAILED; a cancellation or other error fails those started and leaves the rest PENDING |
| ExportRun.ExportWorker.BuildPhase | backend/app/services/export_orchestrator.py:435-495 | each way the build can end, cancelled once or twice included, leaves exactly the files, rows, record and status it must |
| ExportRun.ExportWorker.VerifyAndComplete | backend/app/services/export_orchestrator.py:442-461 | trouble after the build clears the record and then the files, as far as that works; a cancellation ends CANCELLED, other trouble FAILED, and rows up to the trouble stay VERIFIED |
| ExportRun.Outcome | backend/app/services/export_orchestrator.py:435-495 | the same condition on the files for every build, on a free id or not: an orphan always stays, an archive standing goes exactly when a complete cleanup is reached |
| ExportRecovery.Reconcile | backend/app/services/export_recovery.py:11-49 | removes exactly the archive and sidecar named by rows of exports that did not complete and carry a full record, and clears the record of exactly those exports |
| ExportRecovery.RemovesExactlyOwnIncomplete | backend/app/services/export_recovery.py:22-65 | with unique delivery ids, a delivery is removed exactly when its own export did not complete and its ownership was persisted |
| ExportRecovery.DeathThenRecovery | backend/app/services/export_recovery.py:11-65 | a process dies at any moment and recovery runs: archive and sidecar stay where they were if and only if the record was not persisted or the export had completed; the handoff always stays |
| ExportRecovery.BuilderDeathThenRecovery | backend/app/services/export_recovery.py:11-65 | a builder dead at any step leaves its archive, after recovery, if and only if it had been put in place and not taken down |
| ExportRecovery.RecoveryIsIdempotent | backend/app/services/export_recovery.py:11-49 | a second recovery finds nothing to do |
| LoginThrottle.LoginRateLimiter.RecordFailure | backend/app/auth/rate_limit.py:118-163 | one failure of a locked subject changes nothing; otherwise it counts in its window or opens a new one, locks at the threshold, and answers with the least whole seconds covering the lock; no other row changes |
| LoginThrottle.FailureFollowsRule | backend/app/auth/rate_limit.py:118-163 | the specified row and answer after one failure are those of the rule |
| LoginThrottle.LoginRateLimiter.Check | backend/app/auth/rate_limit.py:53-68 | blocks exactly when the username or the address is locked, with the longest wait |
| LoginThrottle.LoginRateLimiter.RegisterFailure | backend/app/auth/rate_limit.py:70-86 | counts for the username and the address, each under its own threshold, and blocks if either does, with the longest wait |
| LoginThrottle.LoginRateLimiter.RegisterSuccess | backend/app/auth/rate_limit.py:88-96 | forgets the username and nothing else |
| LoginThrottle.BlocksExactlyUntil | backend/app/auth/rate_limit.py:98-163 | a subject is blocked exactly until its lock ends, and the announced seconds are the least whole number that covers it |
| LoginThrottle.WindowBound | backend/app/auth/rate_limit.py:118-163 | with lockout >= window, any half-open window counts at most max(T, 2T-2) failures between successes, for every run |
| LoginThrottle.BoundIsAttained | backend/app/auth/rate_limit.py:118-163 | the bound is attained |
| LoginThrottle.ShortLockoutExceeds | backend/app/auth/rate_limit.py:118-163 | with a shorter lockout some run exceeds it |
| LoginThrottle.BoundHoldsIff | backend/app/auth/rate_limit.py:118-163 | over all runs the bound holds if and only if lockout >= window |
| HarborSearch.Search | backend/app/api/harbor.py:255-272 | refuses exactly the needles the query syntax cannot carry; otherwise the answer is in name order, has at most 2000 items and, up to 2000 listed ones, holds each item as often as it is listed if its shown name contains every piece of the search, and no other |
| HarborSearch.AnswerMeans | backend/app/api/harbor.py:255-331 | the same beyond that: complete whenever the upstream result fits the cap, and never more than the matching items |
| HarborSearch.MatchesMeans | backend/app/api/harbor.py:84-114 | matching all tokens against the normalized name says exactly that the folded name contains every folded piece of the search |
| HarborSearch.ShownDropsProject | backend/app/api/harbor.py:122-126 | a repository is shown without the project it was listed in, anything else as it is |
| HarborSearch.LongestIsFirst | backend/app/api/harbor.py:96-103 | of several longest tokens the first is pushed upstream |
| HarborSearch.NeedleIsToken | backend/app/api/harbor.py:92-103 | a search that is not pushed upstream whole is narrowed by one of its own tokens |
| HarborSearch.LocalImpliesUpstream | backend/app/api/harbor.py:96-114 | what matches every token locally contains the longest token in its full name |
| HarborSearch.PushdownKeepsMatches | backend/app/api/harbor.py:96-114 | filtering by the longest token upstream and by all tokens afterwards is filtering by all tokens |
| HarborSearch.PushdownKeepsMeaning | backend/app/api/harbor.py:304-331 | the pushed-down result is the sorted result of purely local filtering if and only if no match lies beyond the scan cap |
| HarborSearch.SortedInOrder | backend/app/api/harbor.py:271-271 | the result is in caseless name order |
| HarborSearch.PagesConcatenate | backend/app/api/harbor.py:73-77 | concatenated pages are the list from its start, and all of it once enough are read |
| HarborProfiles.HarborProfileService.UpdateProfile | backend/app/services/harbor_profiles.py:229-286 | done exactly when no check refuses; then every given field is new, every missing one as before, the name is free, the address not empty, no open operation uses the profile, and no other profile changes; each refusal has its reason |
| HarborProfiles.HarborProfileService.DeleteProfile | backend/app/services/harbor_profiles.py:288-316 | deletes exactly an existing, inactive, never referenced profile, and no other |
| HarborProfiles.HarborProfileService.ActivateProfile | backend/app/services/harbor_profiles.py:151-182 | done means this profile is the active one: it exists and is enabled, and no open unpinned operation was moved by it; otherwise the active profile stays |
| HarborProfiles.HarborProfileService.Bind | backend/app/services/harbor_profiles.py:89-119 | an unpinned operation is pinned to the chosen or active profile as it reads, if usable; a pinned one is confirmed exactly if its profile still reads as pinned and no other was chosen; nothing else changes |
| HarborProfiles.StartPins | backend/app/services/harbor_profiles.py:67-119 | a new operation is pinned to the chosen or active profile as it reads then, and starts only if that is usable |
| HarborProfiles.CreateMeans | backend/app/services/harbor_profiles.py:193-227 | creating adds exactly the given profile, if it has an address and its name is free |
| HarborProfiles.RetryMeans | backend/app/services/import_retry.py:130-185 | a retry is created exactly for a failed import, starts READY and takes over its pin |
| HarborProfiles.DefaultUrlMeans | backend/app/services/harbor_profiles.py:395-440 | the default address changes exactly when no open operation uses the default profile |
| HarborProfiles.StepKeepsValid | backend/app/services/harbor_profiles.py:89-316 | every request keeps: open pinned operations pass their binding check, referenced profiles exist, the active profile is default or enabled |
| HarborProfiles.ValidIffNotStale | backend/app/services/import_retry.py:130-185 | a request keeps that if and only if it is not a retry created from a snapshot that went stale after its check |
| HarborProfiles.StaleRetryReachable | backend/app/services/import_retry.py:130-185 | such a retry is reachable: the binding check and the creation are not in one critical section |
| HarborProfiles.PinIsForGood | backend/app/services/harbor_profiles.py:89-119 | a pinned operation keeps its pin through every request, and a closed one its status |
| HarborProfiles.NamesStayDistinct | backend/app/services/harbor_profiles.py:555-575 | profile names stay pairwise different, caseless, and different from the default's |
| HarborProfiles.RunIsSafe | backend/app/services/harbor_profiles.py:89-316 | the invariant and the immutability of pins over all runs without a stale retry |

## Left out

- JSON text, the schema's type and pattern checks, canonical manifest bytes and Ed25519: the manifest reader and the
  confirming key are functions of the text; that the builder's text reads back and its signature confirms is an explicit hypothesis.
- UTF-8: names and texts are sequences of characters, and encoding is identified with them except for the length
  limit on names.
- Tar, gzip and PAX details, file modes, owners and timestamps: the tar reader is a function of the file's bytes.
- BundleVerification.VerifyBundle: covers the checks on an opened archive; sidecar, digest and unpacking of the file are in BundleDelivery.VerifyStored.
- BundleBuild.StagePayloads: whether a source lies below the payload root, is of the right kind and holds no link is
  given as an observation of the file system; all refusals are one result.
- The order of archive members: sorted as strings here, as path components in the code; no statement depends on it.
- BundleSelfCheck.BuildBundle: an invalid payload path or source digest is refused one step earlier in the code, while
  descriptors are built, and with the validator's own error; here it counts as a refused manifest.
- The contour, source and delivery-id format checks before staging, and reading the
  signing key; the final archive-size check is the verifier's own.
- The cross-device copy in `_stage_archive`, which is not one atomic step.
- Publication.RunIsConsistent: covers files created by the portal; a sidecar or handoff placed by hand without its
  archive is excluded at the start.
- Skopeo, Helm, HTTP clients, TLS and credentials: only their effect on the registry, with no other writer during a run.
- That Helm spells the tag of a chart version with `_` for `+`, and that no registry holds anything under a reference
  with `+`, is taken as given. A digest reference is a name of its own, apart from the tags of the same content.
- The refusal of a mapping override for an artifact index the bundle does not have, before planning starts.
- The second plan hash (`canonical_plan_hash`) and the tamper check when a stored plan is loaded.
- ImportRun.ReplayConverges: assumes the first run reached its receipt and no other writer touched TARGET in between.
- ExportRun.ExportWorker.Run: no other builder of the same delivery id runs beside it (that is `Publication`), and the
  process does not die (that is `ExportRecovery`). After a second cancellation the build thread outlives the worker;
  the statement is about the directory once that thread is through.
- ImportRun.ImportWorker.Run: removing the extraction directory and the stored bundle afterwards; the clients are
  created without error.
- SOURCE signing-key rotation (prepare, activate, cancel), which has only one-branch facts.
- TrustedKeys.LoadTrustedKeys: ownership and mode checks of key files are not modelled.
- Artifact search, which also matches digests and tags, and direct one-token search, which is one upstream query.
- HarborSearch.Search: the listing does not change between page requests, and upstream fuzzy matching is a caseless
  substring test of the full name.
- Profile credentials, CA files and registry types; profile ids are taken already stripped.
- Runtime-mode switching, user administration, sessions, HTTP routes, reports and the frontend.
