# VPSmith verification model

VPSmith manages virtual private servers from a local machine. It compiles desired modules into an execution
bundle, sends the bundle to a target where a runner applies it under a lock and an exclusive claim, imports the
resulting proof into an append-only local history, and can pack everything it knows into an encrypted recovery
package and import that on another machine. This project models the parts of VPSmith whose correctness depends
on several functions working together, and proves what they promise. `dafny verify dfyconfig.toml` checks
everything. Nothing is executed.

| part | modules |
|---|---|
| deployment compiler | `Modules`, `Claims`, `Subnets`, `LinkNets`, `NetworkInput`, `Artifacts`, `Relationships`, `Plan`, `Compiler`, `ModuleOrder` |
| target runner | `Runner`, `PreparedRun`, `TargetRun`, `PreparedBundle`, `RunnerProtocol` |
| execution bundles | `Members`, `Checksums`, `Assembly`, `BundleVerify`, `BundleStore` |
| execution from this side | `ExecutionHistory`, `Executor`, `ExecutionSessions` |
| management state and recovery | `ManagementState`, `StateRecovery`, `StagedImport`, `RecoveryImport`, `RecoveryPackage`, `Reconnection` |
| codecs | `SecretStream`, `TreeHash`, `Archive` |
| shared | `Prelude`, `Ordering`, `Text` |

How the source's notions appear:

* SHA-256, canonical JSON, tar, encryption and clocks are parameters: functions with the injectivity or inverse
  laws that are needed, or arbitrary values. SHA-256 is never assumed to be injective.
* Objects whose methods update fields are classes (`ManagementState.Store`, `StagedImport.Import`,
  `Runner.Target`, `TargetRun.History`, `BundleStore.Store`); loops are methods with invariants, proved against
  specification functions about which the lemmas speak.
* The outside world is a parameter: how each write, move, commit or observation ends, what others write to the
  database meanwhile, when a runner crashes. Statements hold for every such choice.
* Interleavings of runner processes are sequences of events of a state machine (`RunnerProtocol`), with `flock`,
  the exclusive creation of a claim and each copy as atomic steps and a crash possible between any two.

## Findings

Each of these is a proved statement about the code as it is. Where a promise fails, the exact condition under
which it holds is proved too.

* **Ambiguous relationships.** A Link-Net relationship is written `provider/interface->consumer/name` without
  escaping. With `/` and `->` in instance IDs two dependencies can get one relationship: link derivation and the
  claim check then accept the input, two links get one name, and one artifact path is emitted twice
  (`Relationships.AmbiguousRelationship`). Paths are distinct exactly if the relationships of the dependencies are,
  which can be read off the modules before anything is derived (`LinkNets.Unambiguous`,
  `Relationships.CompiledPathsDistinct`), in particular whenever no instance ID contains `/`. The duplicate-path
  check of assembly (`internal/executionbundle/normalize.go:68`) refuses such a bundle, so none is ever written
  (`ModuleOrder.AmbiguousRefused`, `ModuleOrder.PreparedIsUnambiguous`).
* **Reserved names and backslashes.** `Assemble` accepts paths that `Verify` refuses, such as `a\b` and
  `manifest.json` (`BundleVerify.AssembledAndUnreadable`): it succeeds on its own output exactly if no path has a
  backslash or is one of the three names that assembly adds (`BundleVerify.VerifyAcceptsAssembled`). The deployment
  compiler never uses a reserved name (`ModuleOrder.PreparedUnreserved`); backslashes can come from its inputs.
* **The two readers differ.** The runner refuses a path `..` and paths with a line break known to Python's
  `splitlines` only, such as U+2028 (`BundleVerify.AssembledAndUnreadable`); on all other assembled bundles it
  agrees with `Verify` (`BundleVerify.RunnerAcceptsAssembled`).
* **Short reads of the secret FIFO.** The runner reads its unbuffered FIFO with plain `read` calls. The round trip
  holds exactly if no delivery boundary falls inside a field (for IDs without zero bytes); with zero bytes in an
  ID a torn stream can even be read as a secret that was never sent (`SecretStream.StreamRoundTrip`,
  `SecretStream.TornZeroId`).
* **One run per bundle holds per history root.** A runner that chose the bootstrap root before the first
  promotion and one that chose the core root after it can both be in the mutating steps of one structural
  bundle (`RunnerProtocol.SameBundleOnBothRoots`); for the promoted bundle itself this cannot happen.
* **Embedded sources are not replaced.** A comment at `internal/managementstate/recovery.go:97` announces that
  registrations of embedded sources are replaced by an import. The deletion trigger of `source_artifacts`
  (`internal/managementstate/source_migration.go:41`) makes the import fail unless that table is empty, so
  only an entirely empty management state accepts a package (`StateRecovery.ExportImports`). A store that holds
  one embedded registration and nothing else refuses them all (`StateRecovery.EmbeddedSourceBlocks`).
* **Unknown secrets of desired modules.** The validation of a package does not ask whether the secrets named by
  desired modules exist (`StateRecovery.UnknownSecretImports`); the imported state keeps the reference
  invariant exactly if they do (`StateRecovery.ImportKeepsExactly`).
* **Unchanged modules block recovery packages.** Two source rows with one content hash, such as two commits of a
  module that did not change between them, share a snapshot directory. The export copies it twice, and the
  second copy fails on the first file (`internal/sourcelibrary/library.go:565`), so no package can be made
  (`RecoveryPackage.UnchangedModuleDoesNotExport`, a state that one change of an empty store reaches; exact condition
  in `RecoveryPackage.Produce`).
* **Secrets after an interruption.** The executor answers a proof that waits for secrets without looking at the
  lock and the unit, so secrets are delivered even to a run that the same observation classifies as interrupted
  (`Executor.SecretsAfterInterruption`). This happens exactly if polling gets to an observation with a waiting proof
  of the run and neither lock nor unit, nothing has been sent before, and all secrets can be resolved
  (`Executor.Poll`).

## Model

| member | source | states |
|---|---|---|
| Claims.ValidateClaims | internal/deployment/claims.go:11-35 | accepts exactly if every observed claim is complete and no two claims anywhere in the whole list, derived or observed, share kind and value with different logical owners |
| Claims.SortAndScan | internal/deployment/claims.go:19-34 | comparing neighbours of the sorted list answers the question about all pairs of the unsorted one |
| Claims.NeighbourScanComplete | internal/deployment/claims.go:28-33 | in a list sorted by kind, value and owner, agreeing neighbours imply that no two entries collide, and conversely |
| Claims.DeriveClaims | internal/deployment/claims.go:37-66 | the loops derive exactly the claims of the specification, in its order |
| Subnets.ChooseSubnet | internal/deployment/graph.go:114-124 | returns the candidate of the first free probe in cyclic order from the hash, and fails exactly when all 4096 slots are taken |
| Subnets.SlotsCovered | internal/deployment/graph.go:117-123 | the probe sequence visits every slot |
| Subnets.CandidatesDistinct | internal/deployment/graph.go:118-119 | the 4096 slots name pairwise different networks |
| Subnets.CandidateInPrivateBlock | internal/deployment/graph.go:118-119 | every slot names a /24 network inside 10.240.0.0/12 (private space of section 3 of RFC 1918), from which the slot can be read back |
| LinkNets.DeriveLinks | internal/deployment/graph.go:14-76 | the two nested loops with their three maps compute the specified derivation, errors included |
| LinkNets.HoldAllExact | internal/deployment/graph.go:22-48 | observed networks are taken over exactly if their subnets parse, each name and each subnet has one owner, and each relationship occurs once; the maps then hold exactly what was observed |
| LinkNets.LinksDisjoint | internal/deployment/graph.go:19-76 | links with different relationships never share a name or a subnet, and no link shares one with an observed network of somebody else |
| LinkNets.DeriveOwnership | internal/deployment/graph.go:50-73 | after every step each link holds its own name and subnet, which is the observed one of its relationship or a fresh candidate, and no earlier holding is lost |
| LinkNets.LinksInOrder | internal/deployment/graph.go:50-73 | one link per dependency, in the order of the loops, with the relationship of that dependency, its resolved provider and its consumer |
| LinkNets.RelationshipsExactly | internal/deployment/graph.go:50-74 | whether two derived links share a relationship is decided by the modules alone: exactly if two of their dependencies, with the resolved providers, spell the same text |
| LinkNets.DeriveAgain | internal/deployment/graph.go:95-112 | with all its links held, deriving the same needs again reproduces them and changes no holding |
| NetworkInput.CollectNetworks | internal/deploymentinput/network.go:17-64 | the loops build the specified compiler input from observed facts, errors included |
| NetworkInput.ManagedExact | internal/deploymentinput/network.go:20-35 | managed networks are accepted exactly if the present ones match their definition, are complete and have distinct names |
| NetworkInput.NamesDistinctExactly | internal/deployment/graph.go:57-61 | in one result, names are distinct exactly if relationships are |
| NetworkInput.SecondInputAccepted | internal/deploymentinput/network.go:17-64 | the observation of a first derivation is accepted as input exactly if no two dependencies of the modules have one relationship |
| NetworkInput.LinkNetFixpoint | internal/deployment/graph.go:14-112 | if derivation succeeds and its links are then observed beside the same foreign networks, deriving again gives exactly the same links, names, aliases and subnets, unless two dependencies of the modules have one relationship, and then deriving again fails |
| Artifacts.GenerateArtifacts | internal/deployment/generator_quadlet.go:9-47 | the loops generate the artifacts of the specification, sorted by path |
| Artifacts.ArtifactPathsDistinct | internal/deployment/generator_quadlet.go:16-45 | when the claims pass the collision check, paths and target paths of all generated artifacts are pairwise distinct exactly if no two links share a relationship, although names are joined with hyphens |
| Artifacts.FileNamesSeparate | internal/deployment/generator_quadlet.go:16-40 | two different units of a checked compilation never have one file name |
| Artifacts.SharedNameSharedOwner | internal/deployment/claims.go:37-66 | two units with one file name claim one resource and so belong to one logical owner |
| Relationships.RelationshipInjective | internal/deployment/graph.go:57 | without "/" in instance IDs a relationship determines its four parts |
| Relationships.RelationshipsDistinct | internal/deployment/graph.go:50-74 | without "/" in instance IDs derived links never share a relationship |
| Relationships.CompiledPathsDistinct | internal/deployment/compiler.go:23-88 | whenever compilation passes the claim check, artifact paths and targets are distinct exactly if no two dependencies of the modules have one relationship, and always if no instance ID contains "/" |
| Relationships.AmbiguousRelationship | internal/deployment/graph.go:50-74 | four instance IDs for which link derivation and claim check succeed although two links share a relationship and an artifact path repeats |
| Plan.BuildPlan | internal/deployment/plan.go:11-60 | the appending loops compute the specified plan, errors included |
| Plan.PlanSteps | internal/deployment/plan.go:30-59 | a plan applies the artifacts in order, then runs the update actions, then read-only validations; one file per action ID and every step's action known; a validation plan has no mutating step |
| Plan.CollectPreconditions | internal/deployment/state.go:9-23 | the loops collect the specified preconditions |
| Plan.BuildExpectedPost | internal/deployment/state.go:110-112 | the loop builds the artifact map of the post-state document (the whole document is `Compiler.PostOf`) |
| Plan.ExpectedPostExact | internal/deployment/state.go:91-114 | with distinct targets the expected post-state says of every path exactly what the artifact with that target says |
| Compiler.ValidateRequest | internal/deployment/validation.go:11-37 | accepts exactly requests with a target and a subject, observed on the same target, whose desired modules have non-empty, pairwise different instance IDs that agree with their sources |
| Compiler.ValidateSecretBindings | internal/deployment/validation.go:51-73 | accepts exactly if every declared secret is bound to a non-blank ID and every binding is declared |
| Compiler.CompileModules | internal/deployment/compiler.go:90-121 | succeeds exactly if every desired module compiles, with bound secrets, the target's core contract and valid image digests; the compiled modules come out in the order of their instance IDs |
| Compiler.ValidateProviderRemoval | internal/deployment/transitions.go:8-27 | refuses exactly if a desired module depends on the module that the observed subject is an instance of |
| Compiler.FreezeIdentities | internal/deployment/freeze.go:5-34 | the loops list the core source, one source per module and one image per image ID in ascending order |
| Compiler.BundleSecrets | internal/deployment/freeze.go:36-53 | the three nested loops list one reference per module, secret and container |
| Compiler.Prepare | internal/deployment/compiler.go:23-88 | the steps of the method, one after the other, store exactly the bundle that the specification assigns to the request, or leave every stored bundle alone |
| ModuleOrder.CompiledReordered | internal/deployment/compiler.go:90-121 | for every order of the desired modules, compilation gives the same list or fails |
| ModuleOrder.DesiredReordered | internal/deployment/compiler.go:23-88 | so do links, claims, transitions, artifacts and plan |
| ModuleOrder.OrderIrrelevant | internal/deployment/compiler.go:23-88 | requests that differ in the order of their modules and in the order in which observed hashes are iterated lead to the same bundle, byte for byte and with one ID, or are both refused |
| ModuleOrder.PreparedUnreserved | internal/deployment/plan.go:40 | no path of a prepared bundle is ".." or one of the names that assembly adds |
| ModuleOrder.SharedRelationshipRefused | internal/executionbundle/normalize.go:68-70 | artifacts generated for modules with a shared relationship never pass the duplicate-path check |
| ModuleOrder.PreparedIsUnambiguous | internal/executionbundle/normalize.go:68-70 | every bundle that is prepared comes from modules whose dependencies all have their own relationship |
| ModuleOrder.AmbiguousRefused | internal/executionbundle/normalize.go:68-70 | the four instance IDs that pass the claim check are refused by assembly, whatever the actions |
| Runner.CheckPreconditions | internal/targetrunner/parts/01.inc:47-72 | passes exactly if every precondition is met |
| Runner.ArtifactPreActual | internal/targetrunner/parts/04.inc:53 | once the preconditions hold, the dictionary of expected hashes holds the actual hashes of the listed files |
| Runner.ApplyStepGuarded | internal/targetrunner/parts/03.inc:8-22 | a step without an action changes files only in a structural bundle and only by putting bytes with the declared hash at the target of the artifact it names, over nothing or over a plain file with a listed hash; when it is done, that target is as desired |
| PreparedRun.ApplyResult | internal/targetrunner/parts/03.inc:8-22 | applying an artifact fails exactly if its target blocks or a needed write fails; the file is replaced exactly if it neither blocks nor has the desired hash and the rename happens |
| PreparedRun.ApplyNext | internal/targetrunner/parts/03.inc:8-22 | one more artifact keeps all earlier ones applied and nothing else touched, or stops there |
| Runner.ActionStepGuarded | internal/targetrunner/parts/04.inc:57-75 | an action step runs only a script that the bundle declares and holds unaltered, in a validation only as a read-only one; its exit status decides, and every refusal leaves the files alone |
| Runner.Target.RunSteps | internal/targetrunner/parts/04.inc:54-75 | the step loop ends where the specification ends, with its files, its step list and its first error |
| Runner.LogFollowsSteps | internal/targetrunner/parts/05.inc:25-34 | the proof lists exactly the attempted steps in order, all successful but the one at which the run failed |
| Runner.Target.PostState | internal/targetrunner/parts/03.inc:25-37 | accepts exactly if every expected path is a file with its hash |
| PreparedRun.PreparedFollowsPlan | internal/targetrunner/parts/04.inc:51-75 | in a bundle that carries a plan every lookup of the runner finds what was planned: apply steps the bytes of their artifacts, action steps their unaltered scripts |
| PreparedRun.CompilerMeetsRunner | internal/targetrunner/parts/04.inc:54-75 | running a bundle that carries a structural plan on any files stops at an artifact with exactly the earlier ones applied, or at a failing action with all applied, or ends with every target as desired so that the post-state is accepted |
| PreparedRun.ValidationChangesNothing | internal/targetrunner/parts/04.inc:57-63 | the steps of a validation change no file, successful or not |
| PreparedRun.StopsAtFirst | internal/targetrunner/parts/03.inc:8-22 | where the apply phase stops is decided by the initial files: at the first artifact whose target blocks there or needs a write that fails, and nowhere else |
| PreparedRun.DriftIsUnlisted | internal/deployment/state.go:9-23 | after the preconditions have passed, drift can only be met at a target that they do not list or where a symbolic link stands in for the listed file |
| TargetRun.Execute | internal/targetrunner/parts/04.inc:13-75 | a whole run: files change only after lock, preconditions, claim and secrets; the claim, the exit code 0, 1, 75 or 76, the proof and its step list are exactly as specified |
| TargetRun.PreparedSucceeds | internal/targetrunner/parts/05.inc:25-49 | a prepared operation exits with success exactly if it gets to its steps, none stops it and a due promotion works; then every target is as desired |
| TargetRun.UntouchedFiles | internal/targetrunner/parts/04.inc:13-36 | a busy lock, a duplicate claim and any validation leave every file and, for validations, every claim alone |
| TargetRun.ClaimedOnce | internal/targetrunner/parts/04.inc:25-36 | once a structural run has entered, no later run of the bundle on this root changes a file, succeeds or takes over the claim |
| PreparedBundle.DeliveredExactly | internal/targetrunner/parts/00.inc:88-118 | the runner accepts a prepared bundle exactly with the manifest it was assembled with, and exactly if no path holds a backslash or a line break that only Python knows |
| PreparedBundle.DeliveredIsPrepared | internal/deployment/compiler.go:23-88 | what the runner decodes from an assembled bundle is the prepared operation: steps, artifacts with their bytes, actions with their scripts, preconditions and post-state |
| PreparedBundle.DeliveredRun | internal/targetrunner/parts/04.inc:51-75 | from a request to the target: the assembled and accepted bundle of a structural operation stops at an artifact with exactly the earlier ones applied, or at a failing action with all applied, or ends with every generated file on the target and an accepted post-state |
| PreparedBundle.DeliveredOutcome | internal/targetrunner/parts/05.inc:25-49 | the whole run of that bundle succeeds exactly if it gets to its steps, none stops it and a due promotion works; a validation changes no file and makes no claim |
| PreparedBundle.UninstallsInstalled | internal/deployment/compiler.go:123-181 | the bundle of an uninstallation names exactly the installed module, which is no longer desired and on which no desired module depends; its steps only apply the artifacts of the modules that stay |
| RunnerProtocol.Reachable | internal/targetrunner/parts/04.inc:11-75 | over every interleaving and crash of any number of runners the lock table, claims, proofs and promotions satisfy the invariant |
| RunnerProtocol.StructuralExcludes | internal/targetrunner/parts/04.inc:13-20 | a structural run past the lock excludes every other run past the lock of its root |
| RunnerProtocol.EntersOncePerRoot | internal/targetrunner/parts/04.inc:21-50 | at most one run of a structural bundle ever enters its steps on a root, after its preconditions and its claim |
| RunnerProtocol.EnteredTwice | internal/targetrunner/parts/03.inc:40-62 | two runs of one bundle that both entered did so on different roots, and the bundle is not the first promoted one, whose claim is copied before the marker is written |
| RunnerProtocol.ClaimedForGood | internal/targetrunner/parts/04.inc:25-36 | a claim outlives everything, crashes included: no further run of that bundle passes it on that root |
| RunnerProtocol.StartableExactly | internal/targetrunner/parts/04.inc:21-50 | when nobody holds the lock of the root in use, a structural bundle can still get into its steps there exactly if it has no claim on that root |
| RunnerProtocol.SuccessMeansDone | internal/targetrunner/parts/05.inc:35-45 | a success proof, wherever it lies, belongs to a run that passed preconditions, claim, steps and post-state |
| RunnerProtocol.ValidationsShare | internal/targetrunner/parts/04.inc:14 | two validations can be in their steps at once |
| RunnerProtocol.SameBundleOnBothRoots | internal/targetrunner/parts/03.inc:40-62 | a reachable state in which one structural bundle, other than the promoted one, is in its mutating steps on both roots |
| Checksums.ChecksumDocument | internal/executionbundle/canonical.go:28-37 | the loop writes one line per member in the order of the paths |
| Checksums.VerifyPayloadChecksums | internal/executionbundle/verify.go:113-149 | accepts exactly if every line is right and the lines cover every member but the document itself, once |
| Checksums.ReadBundleChecksums | internal/targetrunner/parts/01.inc:1-12 | the Python reader accepts exactly the same, under its own line breaks |
| Checksums.DocumentAccepted | internal/executionbundle/canonical.go:28-37 | a reader accepts a written document exactly if no path contains one of its line breaks |
| Assembly.NormalizeFiles | internal/executionbundle/normalize.go:59-104 | accepts exactly safe, pairwise different paths with safe modes; artifacts come out sorted, actions in their order |
| Assembly.Assemble | internal/executionbundle/assembler.go:34-80 | succeeds exactly on valid input and returns the bundle of the specification, whose ID is the hash of the manifest with an empty ID |
| BundleVerify.Verify | internal/executionbundle/verify.go:20-97 | accepts exactly if the hash is right, members are safe and distinct, checksums cover everything, the runner is present and the ID is the hash of the manifest with an empty ID; returns that manifest |
| BundleVerify.VerifyAcceptsAssembled | internal/executionbundle/assembler.go:34-80 | an assembled bundle is accepted, with exactly the assembled manifest, exactly if no path has a backslash or a reserved name |
| BundleVerify.RunnerAcceptsAssembled | internal/targetrunner/parts/00.inc:88-118 | the runner accepts exactly those assembled bundles whose paths also avoid ".." and the line breaks only Python knows |
| BundleVerify.SingleReaders | internal/executionbundle/normalize.go:65-67 | which of the two readers accept a bundle with one file is decided by its name alone, for every name that assembly admits |
| BundleVerify.AssembledAndUnreadable | internal/executionbundle/normalize.go:65-67 | the file names "a\b" and "manifest.json" are assembled and then refused by both readers; ".." and a name with U+2028 by the runner only |
| BundleVerify.DocumentPinsPayload | internal/executionbundle/verify.go:113-149 | accepted bundles with the same checksum document have the same members, as far as the hash tells contents apart |
| BundleStore.Store.Put | internal/executionbundle/assembler.go:101-144 | an existing bundle is never replaced, and a failed write leaves nothing |
| BundleStore.Store.AssembleAndStore | internal/executionbundle/assembler.go:34-80 | whatever the outcome, bundles that were there keep their bytes |
| BundleStore.Store.Open | internal/executionbundle/assembler.go:82-99 | finds a bundle exactly if its ID is well-formed and its bytes verify under it |
| BundleStore.Store.RoundTrip | internal/executionbundle/assembler.go:34-99 | what was assembled and stored opens with the same manifest exactly if no path has a backslash or a reserved name |
| BundleStore.OrderIndependent | internal/executionbundle/normalize.go:106-165 | bytes and ID do not depend on the order of files, sources, images, secrets, preconditions, validations or writable paths, of each list whose order differs at all its sort key telling the entries apart |
| ManagementState.ValidateDesired | internal/managementstate/store.go:246-269 | accepts exactly complete modules with distinct instance IDs |
| ManagementState.AppliedKeeps | internal/managementstate/store.go:210-416 | every operation keeps the invariant (every named secret, bundle and base exists) and lets history only grow |
| ManagementState.ChangesKeep | internal/managementstate/store.go:173-202 | so does any sequence of changes, whatever they attempt and however they end |
| ManagementState.ReachableStates | internal/managementstate/store.go:173-202 | every state reachable from an empty database satisfies the invariant |
| ManagementState.DeletableExactly | internal/managementstate/store.go:350-363 | a secret can be deleted exactly if the invariant survives its absence |
| ManagementState.RotationsTell | internal/managementstate/store.go:307-348 | only deletion unsets a secret, and its rotation counter tells every replacement of its value |
| ManagementState.SecretReferenced | internal/managementstate/store.go:429-466 | the search finds a reference exactly if a target, the GitHub configuration or a desired module names the secret |
| ManagementState.Store.Commit | internal/managementstate/store.go:173-202 | a change takes effect completely or not at all, and keeps the invariant and the history |
| StateRecovery.ExportRecovery | internal/managementstate/recovery.go:20-51 | the export lists every table in ID order, with the value of every set secret but the withheld one |
| StateRecovery.ValidateRecovery | internal/managementstate/recovery.go:213-292 | accepts exactly packages whose secrets, omissions, material, GitHub configuration and targets fit together |
| StateRecovery.InsertsExactly | internal/managementstate/recovery.go:121-205 | inserting row by row succeeds exactly if no row breaks a key, a check, a reference or a uniqueness constraint, and gives exactly the rows |
| StateRecovery.ReplaceFromRecovery | internal/managementstate/recovery.go:69-211 | either the state becomes exactly that of the package, or it is unchanged |
| StateRecovery.ExportImports | internal/managementstate/recovery.go:20-292 | a package made from a reachable state is accepted exactly by an entirely empty state and exactly if every target has an address and a set key that travels; targets, sources, secrets and history are then the same, only the withheld PAT is unset, and the backup list is the package |
| StateRecovery.RestoredKeeps | internal/managementstate/recovery.go:69-211 | the restored state satisfies the invariant of reachable states |
| StateRecovery.ImportKeepsExactly | internal/managementstate/recovery.go:213-292 | an import of any package keeps the invariant exactly if the package lists every secret that its desired modules name |
| StateRecovery.UnknownSecretImports | internal/managementstate/recovery.go:213-292 | a package with an unknown secret in a desired module is imported |
| StateRecovery.EmbeddedSourceBlocks | internal/managementstate/recovery.go:96-120 | a store that one registration of an embedded source has reached refuses every package, also one that an empty store imports |
| StagedImport.Import.Stage | internal/sourcelibrary/recovery.go:103-160 | a candidate is staged unless something that may stand in for it is there; something else there is an error |
| StagedImport.Import.Commit | internal/sourcelibrary/recovery.go:175-198 | all candidates are in place afterwards and nothing else is new, or everything is as when the import was prepared |
| StagedImport.Import.Rollback | internal/executionbundle/recovery.go:137-148 | undoes exactly what the import published |
| StagedImport.Import.Seal | internal/executionbundle/recovery.go:150-159 | what was published stays, and no later close undoes it |
| StagedImport.Import.Close | internal/sourcelibrary/recovery.go:224-234 | without a seal the published files are those from before; the stage directory is gone |
| StagedImport.PublishFileExclusive | internal/backuprestore/envelope_store.go:102-146 | publishes the file only if the name is free; any failure leaves every file as it was |
| RecoveryImport.PrepareTrees | internal/sourcelibrary/recovery.go:80-160 | succeeds only if the package holds exactly the wanted trees with their hashes and nothing else is at their places; publishes nothing |
| RecoveryImport.PrepareBundles | internal/executionbundle/recovery.go:54-103 | succeeds only if the package holds exactly the named bundles, each verifies under its row and repeats it, and no other file has its name; publishes nothing |
| RecoveryImport.Adopt | internal/backuprestore/envelope_store.go:44-100 | the package file is registered and the state replaced, or both are as before |
| RecoveryImport.ImportPackage | internal/recoverypackage/service.go:50-101 | all or nothing: whichever step fails, trees, bundles, backup files and state are those from before; after success every named object is there with its declared hash and nothing else has changed; no stage directory is left; without failing steps it succeeds exactly if nothing stands against it |
| RecoveryPackage.Produce | internal/recoverypackage/service.go:192-233 | a package is made exactly if the target is known, every source is held unchanged and under its own hash, and every bundle opens; it holds exactly what the state names |
| RecoveryPackage.ExportTrees | internal/sourcelibrary/recovery.go:18-60 | copies exactly the named trees, or fails exactly if one is missing, altered or would be copied onto itself |
| RecoveryPackage.ExportBundles | internal/executionbundle/recovery.go:15-36 | copies exactly the named bundles, or fails exactly if one does not open under its recorded hash |
| RecoveryPackage.ProducedImports | internal/recoverypackage/service.go:50-101 | a produced package can be imported where nothing is disputed exactly if the state there is empty, every target has an address and a key that travels, and history rows repeat their manifests; the state is then the restored one |
| RecoveryPackage.Transfer | internal/recoverypackage/service.go:42-101 | producing on one machine and importing on another, end to end: the other machine has the restored state, which satisfies the invariant, or is unchanged |
| RecoveryPackage.UnchangedModuleDoesNotExport | internal/sourcelibrary/library.go:528-581 | a state that one change of an empty store reaches, with every source held, of which no package can be made |
| ExecutionHistory.RegisterBundle | internal/executionstate/adapter.go:40-63 | success means that the bundle is known with exactly the metadata of the run, whatever others write between reading and writing |
| ExecutionHistory.Finished | internal/executionstate/adapter.go:65-95 | only a terminal proof of the run enters the history, at most once; success means that exactly this proof is recorded |
| ExecutionHistory.FinishAddsProof | internal/executionstate/adapter.go:65-95 | the record of the proof is the only thing that can be new, and only if there was none |
| ExecutionHistory.RegisterKeepsRecords | internal/executionstate/adapter.go:40-63 | registering a bundle changes no record |
| Executor.ResolveSecrets | internal/execution/executor.go:144-175 | succeeds exactly if every referenced secret has an ID and a non-empty value; each comes once, in ID order |
| Executor.Examine | internal/execution/executor.go:80-98 | after one observation polling stops exactly on a foreign proof, a vanished run or undeliverable secrets; secrets go out exactly if a proof of the run awaits them, none were sent before and all can be resolved |
| Executor.Poll | internal/execution/executor.go:68-117 | polling ends with a proof exactly if it reaches the first terminal one of the run; secrets are then sent once if an earlier observation awaits them, and else never; they go to a run that the observation shows as interrupted exactly if polling gets to a waiting proof of the run without lock and unit, before anything was sent, with all secrets resolvable |
| Executor.SecretsAfterInterruption | internal/execution/executor.go:86-111 | for every run with resolvable secrets, an observation that classifies it as interrupted and to which its secrets are sent |
| Executor.Launch | internal/execution/executor.go:54-74 | one upload, one registration, at most one start, in this order; the bundle is in the history before the start |
| Executor.Execute | internal/execution/executor.go:44-118 | one start at most, secrets at most once and in turn, no error only with a recorded success proof, and verdict and history decided exactly by the first terminal proof |
| Executor.Reconcile | internal/execution/executor.go:120-142 | asks for one observation and nothing else; a terminal proof of the run is recorded or refused exactly as by an execution |
| ExecutionSessions.RunSessions | internal/execution/executor.go:44-142 | over any sequence of executions, reconciliations and other changes: records never change and each is that of a terminal proof shown for its run; no run is started or sent secrets twice |
| ExecutionSessions.ExecuteActs | internal/execution/executor.go:44-118 | the calls of one execution contain at most one start and at most one delivery, both of its own run |
| Reconnection.Reconnect | internal/recoverypackage/service.go:120-182 | the report holds exactly the differences, sorted, and matches exactly if history and proofs are consistent |
| Reconnection.MatchesExactly | internal/recoverypackage/service.go:134-182 | there is no difference exactly if every proof has a local bundle of the same hash and a record of the same bundle and outcome, and every local record has a proof |
| Reconnection.RecordedAgrees | internal/executionstate/adapter.go:40-95 | what an execution has registered and recorded agrees with its proof, now and in every later state |
| Reconnection.RecoveryKeepsReport | internal/recoverypackage/service.go:134-182 | a restored state gives the same report as the exported one |
| Reconnection.ExecutedBundleRow | internal/executionstate/adapter.go:53-62 | the history row of an executed bundle repeats its manifest, which is what a recovery import asks of it |
| SecretStream.EncodeSecretStream | internal/targetgateway/execution_helpers.go:12-37 | fails exactly on an empty or overlong ID, an empty value or a repeated ID, and else writes exactly the records and the terminator |
| SecretStream.ReadSecrets | internal/targetrunner/parts/01.inc:74-84 | the reading loop computes the specified parse, exceptions included |
| SecretStream.StreamRoundTrip | internal/targetrunner/parts/02.inc:1-17 | for every list the writer accepts with UTF-8 IDs and values up to 64 MiB, if every field was there when asked for, the reader returns a map with exactly these IDs and values and stops at the terminator, whatever the values contain and whatever follows it; for IDs without zero bytes the conditions are necessary |
| SecretStream.TornZeroId | internal/targetrunner/parts/02.inc:1-17 | a torn ID with zero bytes is read as a secret that was never sent |
| TreeHash.HashedStream | internal/sourcehash/sourcehash.go:21-108 | the sorting and writing loops produce the specified stream; a tree without entries has none |
| TreeHash.StreamUnique | internal/sourcehash/sourcehash.go:92-107 | sorted lists of well-formed entries have equal streams only if they are equal, although records of three and five fields are mixed without a count |
| TreeHash.SameStreamExactly | internal/sourcehash/sourcehash.go:92-107 | two walks hash the same stream exactly if they met the same entries, in whatever order |
| Archive.CreateHeaders | internal/backuprestore/archive.go:77-146 | the first path of a file is archived with its contents and every further one as a hard link to the first |
| Archive.InspectHeaders | internal/backuprestore/archive.go:163-195 | accepts exactly if every header is valid and no path repeats |
| Archive.ExtractArchive | internal/backuprestore/archive.go:197-314 | the loops with collected hard links and directories compute the specified three passes |
| Archive.ExtractionStaysInside | internal/backuprestore/archive.go:316-373 | whatever an archive contains, everything its extraction creates lies below the root and in real directories |
| Archive.RoundTrip | internal/backuprestore/archive.go:41-314 | an archived tree can be extracted exactly if its names and link targets pass the header check; paths, kinds, contents, targets, metadata and the hard-link relation are then the same |
| Archive.CreateAndExtract | internal/backuprestore/archive.go:41-314 | the same, of the two methods run one after the other |

## Left out

- Texts of generated Caddy, Authelia, Quadlet and Cloud-init files: a parameter of `Artifacts`; names, target paths and order are modelled.
- `diffState` and `runtimeObjects` (`internal/deployment/state.go:25-89`, `internal/deployment/state.go:116-132`): listings for display, with no step depending on them.
- Compilation of a module contract from its package: `Tools.compile` in `Compiler` is a parameter. What contract validation establishes (identifiers, unique IDs inside a module) is a precondition of the claim lemmas; distinct instance IDs are checked by `Compiler.ValidateRequest`.
- The parts of a prepared operation that do not enter the bundle: the frozen identities and the image map that are shown with a plan, and step descriptions.
- Errors of JSON encoding in artifact generation: encoding the inventories is a total parameter.
- Artifacts.ArtifactPathsDistinct: its condition is about links, which are an argument of artifact generation; `Relationships.CompiledPathsDistinct` states it about modules.
- Claims.DeriveClaims: folds host names outside ASCII only where their lower-case form is ASCII; a module contract admits no others.
- StateRecovery.ExportRecovery: reads one state, while the source takes the snapshot and then each secret value under separate locks (`internal/managementstate/recovery.go:20-51`); an export during which a secret is rotated or deleted is not covered.
- SSH transport, shell scripts, systemd, cgroups and the sandbox of actions: an action is an arbitrary change of the files; where a lemma needs the sandbox (`Sandboxed`), actions leave artifact targets alone and read-only actions leave every file alone.
- The secret files written by `materialize_secrets`: only whether writing them succeeds is modelled.
- File modes and owners set by the runner: only the contents of files are modelled; the modes of actions are not covered by a bundle ID in the source either.
- A crash inside an atomic write, a copy or a database commit: these are single steps. `RunnerProtocol` allows a crash between any two steps; imports of recovery packages are modelled without crashes, with every publishing step able to fail and removals of what an import created succeeding.
- `flock` errors other than a busy lock, and failures before the lock is asked for: they change nothing (exit code 2).
- Encryption, key derivation and compression of recovery packages: a package in `RecoveryImport` is what decryption and manifest validation have made available.
- The database search for secret text in other columns: an operation may be refused for it (`refused` in `ManagementState.Call`), without saying when.
- RecoveryPackage.Produce: requires that storage references are the canonical ones, which the source library writes; the export itself would follow any local reference.
- ExecutionSessions.RunSessions: requires that run IDs are not allocated twice (they are random in the source) and that only executions and reconciliations write records.
- Path joins are concatenations, and storage references are opaque keys below their root; parents of published trees that an import creates stay behind empty after a rollback, as in the source.
- Interference of other processes with the source library, the bundle store and the backup directory during an import: a move can fail for any reason, but nobody else adds or removes files meanwhile.
- The zeroing of secret buffers after use: values have no address in the model.
- Polling intervals: the observations of a run are a sequence, and cancellation is its end.
- Extended attributes and ownership in archives are one opaque metadata value per entry, and archives are lists of headers: tar and zstd framing is not modelled.
- JSON decoding of manifests, proofs and recovery states: `decode` is a partial inverse of `encode`, with no claim about other inputs.
- SecretStream.ReadSecrets: the UTF-8 check is a parameter, so IDs are compared as bytes; strict decoding keeps different byte strings apart.
- TreeHash.StreamUnique: says that the hashed streams differ, not that the hashes do; SHA-256 is not assumed to be injective.
- BundleStore.OrderIndependent: requires, of each list that comes in another order, that sort keys tell entries apart where the comparators of the source ignore fields, because the sorting used there is not stable, and that no input path is one of the three reserved names; for prepared bundles both hold (`ModuleOrder.OrderIrrelevant`).
- Archive.RoundTrip: a tree is described by its sorted listing; files that cannot be archived (devices, sockets) have no node.
- Text of error messages; only which error occurs is modelled where callers can tell.
- HTTP, user interface, Git remotes and merges, registry client, host inspection and enrolment.
