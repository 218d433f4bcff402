# Accord inventory and sync: a verified model

Accord keeps Argo CD Applications and ApplicationSets in step with a Git repository, in both directions.
The inventory controller normalizes every changed object, hashes it, and queues a file write (or, for a
deleted object, a move to the archive) that a batch worker flushes into Git. Git's push webhook goes the
other way: it reports the changed paths, and the sync side applies or deletes the objects those paths
name, with a stamp annotation that holds the digest of the file. The controller ignores an event whose
object carries its own digest as stamp, or whose digest it has cached. This model states what that
protocol guarantees and proves it; where a guarantee fails, it proves exactly when.

## How the model is layered

| module | contents |
|---|---|
| `Text`, `Wrappers` | Go's string, `path.Clean` and sorting functions; options and results |
| `Paths` | rendering and parsing of inventory paths, cache keys, archive paths |
| `Documents`, `Normalize` | first YAML document, normalization of manifests, digests, exported files |
| `Tree`, `Worker` | the Git tree, batch operations, the batch worker and the remote it pushes to |
| `CommitMessage` | subject and body of an inventory commit |
| `Inventory` | the hash cache and the two reconcilers |
| `Push`, `Apply`, `Webhook` | push events, applying one file, serving a whole push |
| `Merge` | server-side apply as a field-wise merge, and how it commutes with normalization |
| `OneObject` | the whole protocol as one object sees it, with its invariants and its measure |
| `Protocol`, `Projection` | the joint system of all objects, and its refinement of `OneObject` |
| `Convergence`, `Termination` | theorems about whole runs of the joint system |
| `Refinement` | the worker's flush as steps of the joint system |
| `Witnesses` | runs of the joint system that end in disagreement |
| `Encoding` | a library that meets the assumptions below, so that they do not contradict one another |

Code that updates state is a class or a loop: `HashCache`, `ReconcileDeps`, `BatchWorker`, `GitRemote`,
`Manifest`, `WebhookHandler`, and the loops of the push parser and the commit message. Each method is
proved equal to a function of the old state (`Reconciled`, `QueueAll`, `RunOps`, `Served`,
`AddedPaths`, ...), and the joint system takes its steps with those same functions: an event is
`Reconciled`, a landing flush is `RunOps` in any iteration order of Go's map, and a webhook call is
`Served` on the lists that the parser reports. Enqueues, foreign pushes and restarts may happen while a
flush runs, because the worker holds no lock during its export.

## Assumptions

- `CollisionFree`: two different normalized objects have different SHA-256 digests.
- `Lossless`: writing a map as YAML and reading it back loses nothing, and the text, trimmed, holds no
  document separator. What `firstYAMLDocument` does to an export is derived from that.
- `ClipsOnlySpec`: cutting the blanks off the end of an exported Application or ApplicationSet can change
  only its spec, which YAML lists last, and removes no field. Both together are `Dependable`. `Encoding`
  shows that all three can be met, also by a library with an export that trimming changes.
- Objects are as the API server admits them for their kind (`WellFormed`), new ones are created without a
  stamp, and names do not end in `.yml` (`Valid`).
- In the joint system webhooks are served in order, every request they make succeeds (`Obliging`), each
  push is served as one step, while the handler makes one request per file and others may come in between,
  and an accepted delete removes the object at once: no finalizer keeps it with a deletion timestamp.
  `Convergence.AgreesRoughlyIff` does without the successes.
- Each server-side apply either replaces the object or merges the file into it field by field, as the
  API server pleases, and adds at most status and volatile metadata (`AppliedOver`). Convergence and
  termination hold for both.
- A push by others describes how the tree changed (`Describes`; see `Push.MisreportedIff` for the pushes
  this excludes), and the inventory files it mentions can be applied to the object their path names
  (`FileFits`). Nothing is assumed about files that no push mentions. A batch that stray files block keeps
  failing; `Termination.StuckIff` says when that is all that is left.
- `RunAt` is a run that spares one object: no flush fails while another operation is queued at its path, and
  no restart happens while it is absent with its file in Git and no unserved push about it. With `foreign`
  set, others may push changes of its file; otherwise they leave that file as it was. Beyond the
  points above nothing is asked about other objects. `ClusterRun` asks the same for all objects and has no pushes by others; `AnyRun` has
  them. `RoughRun` asks for nothing of the kind.

## Where the code promises more than it keeps

The model follows the code. Each case has a concrete input or run and an exact condition.

- **Failed flush.** The comment at `internal/git/worker.go:74` says that the last write wins; putting a
  failed batch back (lines 127-129) lets the older operation win. `Worker.FailedFlushRevivesOldWrite`,
  exact in `Worker.FailedFlush`.
- **Stale cache.** `handle` returns on a matching stamp before it updates the cache
  (`internal/inventory/reconciler.go:51-57` against line 65), so editing an object back to an earlier
  state after a change from Git is ignored for good. `Witnesses.StaleCacheRun`, exact in
  `Convergence.EditReachesGitIff` for one edit and in `Convergence.ConvergesBothSides` at rest.
- **Trimmed exports.** `firstYAMLDocument` trims the text it reads (`internal/inventory/normalize.go:67-76`). An
  export whose last field is a string with a newline at its end, such as the `templatePatch` of an
  ApplicationSet, loses that newline when it is read back: the file does not hash to the cached digest, and
  what is in Git is not what is in the cluster. `Witnesses.TrimmedExportRun`, exact in
  `Normalize.ExportRehash` for one file and in `Convergence.ConvergesAt` at rest.
- **Restart.** `docs/adr/0001-inventory-in-memory-queue-design.md:10` claims that nothing is lost when
  the queue is. An archive operation is: the informer lists no deleted object.
  `Witnesses.LostArchiveRun`, exact in `Termination.RestartHealsIff`.
- **`.yml` names.** The parser trims both extensions (`internal/sync/path.go:56`): a name that ends in
  `.yml` does not survive the round trip, and two files can speak for one object. Exact in
  `Paths.RoundTrip`; `Paths.YmlAlias`, all aliases in `Paths.PreimageIff`. Worse, removing the file of `x.yml`
  deletes the object `x`: exact in `Webhook.RemovalSparesOthersIff`.
- **Push parsing.** Commit order is ignored (`internal/sync/github.go:82-85`): a path modified and then
  removed within one push is reported as added. `Push.ModifyThenRemove`, exact in `Push.MisreportedIff`.
- **Stamps.** A file with `annotations:` left empty, or with an annotation that is no string, is applied
  with a stamp that the controller does not recognise. `Apply.NullAnnotationsBreakTheStamp`, exact in
  `Apply.EchoRecognisedIff`.
- **Commit body.** `docs/git-policy.md:19` allows ten lines; the code lists ten paths and then a
  remainder line, once for writes and once for archives, each under a heading when there are both.
  `CommitMessage.BodyBeyondTen`, exact in `CommitMessage.BodyWithinTenIff`.

## Model

| member | source | states |
|---|---|---|
| Termination.EventualAgreement | internal/inventory/reconciler.go:41-102 | after any cluster-side run, the steps the controllers still take by themselves are bounded in number, and when none is possible cluster and Git agree on exactly the objects that export truly, or stray files that were in Git from the start block the batch |
| Convergence.Converges | internal/git/worker.go:108-132 | every state at rest of every cluster-side run agrees on an object if and only if it is absent, came from Git as it is, or can be exported and trimmed without harm; so on all objects if and only if that holds of all |
| Convergence.ConvergesAt | internal/git/worker.go:108-132 | the same for one object once nothing is left to do for it, whatever happens to other objects: pushes by others, races, restarts, unexportable neighbours |
| Witnesses.TrimmedExportRun | internal/inventory/normalize.go:67-76 | for any object whose export trimming changes, a cluster-side run that ends at rest in disagreement |
| Convergence.AgreesRoughlyIff | internal/sync/webhook.go:91-140 | after any run whatsoever, with lost or failing webhooks, racing flushes and restarts at any time, an object without an open event agrees with Git if and only if the matching stamp, or else the cached digest, is the digest of its file |
| Convergence.ConvergesBothSides | internal/sync/webhook.go:90-140 | with pushes by others as well, a state at rest agrees on an object if and only if the object is absent, or recognised by its stamp, or its cached digest is that of its file |
| Convergence.EditReachesGitIff | internal/inventory/reconciler.go:51-72 | at rest after any run, an edit or re-creation reaches Git, as itself or as its export reads, if and only if it is not the case that the cache holds its digest while Git holds another material |
| Witnesses.StaleCacheRun | internal/inventory/reconciler.go:51-57 | for any object, file pushed by others and edit back, a run of the joint system that ends at rest in disagreement |
| Convergence.CacheMatchesQueue | internal/inventory/reconciler.go:59-72 | in every run, an operation under way for an object is an applicable write of the very material whose digest is cached, or an archive operation with nothing cached |
| Convergence.CacheMatchesGit | internal/inventory/hashcache.go:33-52 | as long as others leave an object's file alone, a cached digest is that of the material whose export the file holds or will hold |
| Convergence.RunAtSound | internal/inventory/reconciler.go:41-102 | the inductive invariant over cache, stamp, queue, file and unserved pushes of an object holds in every reachable state |
| Termination.InternalRunsAreBounded | internal/inventory/reconciler.go:51-72 | from any orderly state every interleaving of events, flushes and webhooks is finite, with a bound that the state determines, also when applying merges |
| Termination.InternalStepUses | internal/git/worker.go:108-132 | each such step uses up some of a weighted measure summed over all objects |
| Termination.Progress | internal/git/worker.go:90-107 | while an event, an operation, a batch or a push is left and the running batch is not blocked, some step is possible |
| Termination.StuckIff | internal/git/worker.go:90-107 | no step is possible if and only if all is at rest, or events and pushes are done and the running batch is blocked |
| Termination.UnobstructedRun | internal/git/worker.go:171-188 | without pushes by others, a tree in which no exported path is blocked stays so |
| Termination.RestartHealsIff | docs/adr/0001-inventory-in-memory-queue-design.md:10 | after a restart an object comes to rest in agreement if and only if it exports truly and was not absent with its file still in Git and no unserved push about it |
| Witnesses.LostArchiveRun | docs/adr/0001-inventory-in-memory-queue-design.md:10 | a run in which a deletion is handled, the controller restarts, and the system rests with the file still in Git |
| Projection.StepAtProjects | internal/git/worker.go:75-132 | every step that spares an object is a step of the one-object protocol |
| Projection.AnyStepIsLocal | internal/git/worker.go:75-132 | every step of the joint system spares each object, and without pushes by others leaves its file to the worker |
| Projection.AnyStepKeepsOrder | internal/sync/apply.go:112-148 | every step keeps all queued operations on rendered paths with applicable files, all pushed files applicable and all objects well-formed |
| Projection.LandsAt | internal/git/worker.go:171-209 | a landed batch and the push it emits say the same about every live path: the file becomes what the operation says, and an operation that changes nothing is not reported |
| OneObject.SoundStep | internal/inventory/reconciler.go:41-102 | all steps keep the one-object invariant, with pushes from both sides |
| OneObject.LandingUsesWeight | internal/git/worker.go:206-209 | landing an operation outweighs the push that may come of it, so the delete, archive, delete-echo cycle ends |
| OneObject.ServingUsesWeight | internal/sync/webhook.go:90-140 | serving a push uses up weight, whether the file replaces the object or is merged into it; an unrecognised merge brings the object closer to having every field in sight |
| Worker.BatchWorker.constructor | internal/git/worker.go:66-72 | a new worker has an empty queue |
| Worker.BatchWorker.Enqueue | internal/git/worker.go:75-79 | a write replaces whatever was queued for the path and nothing else |
| Worker.BatchWorker.EnqueueArchive | internal/git/worker.go:83-87 | an archive operation replaces whatever was queued for the path and nothing else |
| Worker.BatchWorker.EditClone | internal/git/worker.go:171-188 | the loop over the batch runs each operation once, in some order, and fails only if the batch can fail in some order |
| Worker.BatchWorker.ExportBatch | internal/git/worker.go:148-233 | the remote moves from the cloned head to it plus the whole batch in one commit that is not empty, or is left to what others pushed; a batch that makes no difference is no commit; success without faults; only a lost answer hides a landed batch |
| Worker.BatchWorker.Restore | internal/git/worker.go:125-131 | a failed batch overlays the queue, whatever order Go iterates in |
| Worker.BatchWorker.Flush | internal/git/worker.go:108-132 | flush with concurrent enqueues: the batch is published or a no-op and the queue holds just the new enqueues, or the queue is those overlaid by the batch; no repository drops the batch |
| Worker.GitRemote.Push | internal/git/worker.go:228-230 | a push is a compare-and-set on the cloned head |
| Worker.EditableIff | internal/git/worker.go:171-188 | a batch on live paths fails in no iteration order if and only if each operation finds its way free |
| Worker.RetryMakesNoCommit | internal/git/worker.go:206-209 | retrying a batch that landed makes no difference to the tree in any order, in any tree that Git can hold |
| Worker.RetryLeavesHead | internal/git/worker.go:206-209 | flushing a batch that landed before leaves tree and head of the remote to what others push: no commit is made |
| Worker.FailedFlush | internal/git/worker.go:125-131 | no path is lost, and at a path the queue is as if the flush had not run if and only if the path was not re-enqueued differently |
| Worker.FailedFlushRevivesOldWrite | internal/git/worker.go:127-129 | the older of two writes wins across a failed flush |
| Worker.DebounceRefinesImmediate | internal/git/worker.go:75-132 | for any interleaving of enqueues and flushes, after the last flush the live files are those of a worker that applies each operation at once |
| Worker.RunPledged | internal/git/worker.go:75-132 | at every point of such a run, queue over tree is what the immediate worker has |
| Worker.FlushIsAct | internal/git/worker.go:108-132 | without pushes by others, whatever a flush comes to is one of the abstract worker's actions |
| Refinement.FlushIsSteps | internal/git/worker.go:108-132 | every outcome that a flush may have, with enqueues and pushes by others meanwhile, is a begin, those enqueues, and an end or a failure of the joint system |
| Worker.PublishedIsEffect | internal/git/worker.go:171-230 | what a flush publishes, or finds already there, is the order-free effect of its batch |
| Worker.RunOpIsEffect | internal/git/worker.go:171-188 | running one operation at once has the effect the immediate worker gives it |
| Tree.BatchConfluent | internal/git/worker.go:171-188 | on live paths, in any tree, all iteration orders of the batch end alike: they fail if and only if one operation finds its way blocked, and otherwise give one tree, described without an order |
| Tree.WriteFailsIff | internal/git/worker.go:173-180 | a write fails if and only if another file stands where one of its directories should be, or below it; otherwise it changes its path alone |
| Tree.ArchiveMoves | internal/git/worker.go:296-322 | archiving moves the file to inventory/archive over whatever was there, does nothing without a file, and fails when blocked or outside the inventory |
| Tree.EffectProper | internal/git/worker.go:171-188 | a batch never makes a file of a directory or a directory of a file |
| Tree.BatchIdempotent | internal/git/worker.go:303-308 | a batch applied twice is a batch applied once |
| Tree.BatchKeepsFiles | internal/git/worker.go:296-322 | each live file stays or its exact content moves to its archive path; other live files are unchanged |
| Tree.NoPathIsLost | internal/git/worker.go:181-184 | over any run of batches, a path once live or archived stays live or archived |
| Tree.PlacesApart | internal/git/archive_path.go:31-37 | live and archived paths never are directories of one another |
| Tree.LivePathFacts | internal/git/archive_path.go:31-37 | archive paths lie outside the live paths and determine their source |
| CommitMessage.CommitBody | internal/git/worker.go:239-251 | the loop yields the first ten paths, one a line, and a remainder line when there are more |
| CommitMessage.BodyAccounts | internal/git/worker.go:239-251 | read line by line, the body lists the first min(10, n) paths and then the literal remainder line, and listed plus remainder is n |
| CommitMessage.CommitMessageForBatch | internal/git/worker.go:262-294 | subject and body in terms of the batch's writes and archives, which the next rows spell out |
| CommitMessage.SubjectSays | internal/git/worker.go:235-282 | the literal subject, with the number of written files first and of archived files second, in each case |
| CommitMessage.SingleArchiveNamed | internal/git/worker.go:276-279 | the subject of a single archived object names the object |
| CommitMessage.SectionsSay | internal/git/worker.go:272-293 | written files stand under "write:", archived ones under "archive:", with no heading when there is one kind |
| CommitMessage.FullMessage | internal/git/worker.go:211-216 | subject, blank line and body over the sorted paths of the batch |
| CommitMessage.DecimalDigits | internal/git/worker.go:235-237 | numbers are written in base ten |
| CommitMessage.PartitionAccounts | internal/git/worker.go:262-271 | writes and archives partition the paths, keep their order, and their numbers add up |
| CommitMessage.MessageAccounts | internal/git/worker.go:262-294 | the sections of a whole message read back line by line and their counts add up to the batch size |
| CommitMessage.BodyWithinTenIff | docs/git-policy.md:19 | a body keeps to ten lines if and only if the batch has at most ten paths of one kind, or at most eight of both kinds |
| CommitMessage.BodyBeyondTen | internal/git/worker.go:239-251 | eleven writes, and eight writes with one archive operation, have longer bodies |
| CommitMessage.RenderedLegible | internal/inventory/export_path.go:44-59 | rendered paths are single lines that no remainder line resembles, as the accounting needs |
| CommitMessage.SubjectSkipsCi | internal/git/worker.go:235-237 | every subject ends in the marker that skips CI |
| Text.SortedKeys | internal/git/worker.go:253-260 | the sorted keys hold each key once, in strict order, whatever order the map iterates in |
| Text.SortedUnique | internal/git/worker.go:253-260 | such a list is determined by its elements |
| Text.LessIff | internal/git/worker.go:253-260 | a string comes before another if and only if it is a proper prefix or smaller at the first difference |
| Text.TrimExact | internal/inventory/normalize.go:68 | trimming cuts off exactly the blanks at both ends |
| Text.AsciiBlanks | internal/inventory/normalize.go:68 | which ASCII characters are blanks |
| Text.DetourDropped | internal/sync/path.go:38 | empty elements, "." and an element followed by ".." lead nowhere; at the root ".." is dropped |
| Paths.RoundTrip | internal/sync/path.go:37-61 | parsing a rendered path gives back plural, namespace and name if and only if the name does not end in ".yml" |
| Paths.ParseRendered | internal/sync/path.go:53-56 | what parsing gives for every Kubernetes identity, trimmed names included |
| Paths.YmlAlias | internal/sync/path.go:53-56 | a second file, with the other extension, speaks for the same object |
| Paths.PreimageIff | internal/sync/path.go:37-61 | a path speaks for a valid identity if and only if, once cleaned, it is the file with extension .yaml, .yml or .yml.yaml |
| Paths.ParsedIff | internal/sync/path.go:37-61 | what any path declares: exactly the identities with non-empty parts other than "." whose directory and name the cleaned path has, under one of the extensions |
| Paths.SlashAndBlanks | internal/sync/path.go:38-39 | blanks around a path and a slash in front of it do not matter |
| Paths.PluralsInverse | internal/sync/path.go:64-73 | kinds and plurals name each other, and no others do |
| Paths.ArchivedName | internal/git/archive_path.go:31-37 | the archive path of an inventory path, and that other paths are refused |
| Paths.RenderingInjective | internal/inventory/hashcache.go:55-57 | identities, rendered paths and cache keys determine one another |
| Paths.PathIsRelative | internal/inventory/export_path.go:44-59 | a rendered path is "inventory/", the cache key and ".yaml" |
| Paths.ArchiveNeverParses | internal/git/archive_path.go:31-37 | no archive path parses as an inventory path, for any live path without ".." elements |
| Paths.ArchiveDotDotParses | internal/git/archive_path.go:31-37 | with a ".." element one does |
| Paths.ResourceNameOfRendered | internal/git/archive_path.go:40-43 | the stem of a rendered path is the object's name |
| Documents.FirstDocumentIdempotent | internal/inventory/normalize.go:67-76 | the first document of the first document is itself |
| Documents.LaterDocumentsIgnored | internal/sync/apply.go:74-80 | nothing after a separator affects the document that is hashed and applied |
| Documents.FirstOfSingle | internal/inventory/normalize.go:67-76 | of a text without separator only the blanks at its ends are cut off |
| Documents.SeparatorIs | internal/inventory/normalize.go:73 | a document ends at a newline followed by three dashes |
| Normalize.Manifest.Normalize | internal/inventory/normalize.go:83-103 | the in-place edits amount to the normalized manifest |
| Normalize.CleanMetadata | internal/inventory/normalize.go:90-99 | the same for metadata and annotations |
| Normalize.NormalizedEqualIff | internal/inventory/normalize.go:83-103 | two objects normalize equally if and only if they agree on all but status, volatile metadata, the two bookkeeping annotations and the presence of emptied maps |
| Normalize.TopLevelStrippedIff | internal/inventory/normalize.go:84 | changing a top-level field other than metadata goes unnoticed if and only if it is the status |
| Normalize.MetadataStrippedIff | internal/inventory/normalize.go:33-41 | changing a metadata field other than the annotations goes unnoticed if and only if it is one of the seven volatile ones |
| Normalize.AnnotationStrippedIff | internal/inventory/normalize.go:93-95 | changing an annotation goes unnoticed if and only if it is the stamp or kubectl's last-applied configuration |
| Normalize.NormalizedIdempotent | internal/inventory/normalize.go:83-103 | normalizing twice is normalizing once |
| Normalize.ExportRehash | internal/inventory/normalize.go:120-136 | an exported file hashes to the digest cached for the object if and only if the trimmed text still reads as the object's material |
| Normalize.HashEqualIff | internal/inventory/normalize.go:48-65 | digests are equal if and only if the materials are |
| Encoding.AssumptionsHold | internal/inventory/normalize.go:120-136 | a concrete library meets all assumptions made of digest, YAML and JSON |
| Encoding.AssumptionsAllowTrimming | internal/inventory/normalize.go:67-76 | so does one with an export that trimming changes |
| Apply.EchoRecognisedIff | internal/sync/apply.go:73-105 | the controller recognises the echo of an applied file by its stamp if and only if the file's annotations are a map of strings, absent, or bookkeeping only |
| Apply.EchoRecognised | internal/inventory/reconciler.go:51-57 | the echo is recognised, and carries the file's material, without any assumption on digests |
| Apply.NullAnnotationsBreakTheStamp | internal/sync/apply.go:93-99 | a file with null annotations is not recognised |
| Apply.StampKeepsMaterialIff | internal/sync/apply.go:93-99 | stamping keeps the material if and only if the annotations are stampable |
| Apply.ExportDeployable | internal/sync/apply.go:112-148 | an exported file passes identity validation for its object and has all its fields; it carries its material if and only if it can be trimmed without harm |
| Apply.IdentityOfMaterial | internal/sync/apply.go:112-148 | identity validation sees only the material |
| Apply.AcceptedIff | internal/sync/apply.go:112-148 | validation accepts exactly the manifests with the API version, the kind of the plural, the namespace and the name of the path |
| Apply.FirstMismatchReported | internal/sync/apply.go:112-148 | a mismatch reports the first field that differs, with what was expected and seen |
| Apply.PreparedIff | internal/sync/apply.go:73-99 | a file is sent to the API server if and only if its first document is an object that declares the path's identity |
| Apply.UnreadableIff | internal/sync/apply.go:74-87 | which files fail before validation, and with which error |
| Apply.PreparedOnce | internal/sync/apply.go:107-111 | no file is applied to two objects |
| Apply.StampedExactly | internal/sync/apply.go:93-99 | stamping changes the annotations alone: the file's, if all are strings, and the stamp |
| Inventory.HashCache.Get | internal/inventory/hashcache.go:33-38 | the cached digest, or none |
| Inventory.HashCache.Set | internal/inventory/hashcache.go:41-45 | the digest is cached, other keys are kept |
| Inventory.HashCache.Delete | internal/inventory/hashcache.go:48-52 | the key is gone, other keys are kept |
| Inventory.ReconcileDeps.Handle | internal/inventory/reconciler.go:41-75 | the memory after an event of an existing object |
| Inventory.ReconcileDeps.ReconcileApplication | internal/inventory/reconciler.go:84-102 | present, absent and failing lookups of an Application |
| Inventory.ReconcileDeps.ReconcileApplicationSet | internal/inventory/reconciler.go:121-139 | the same for an ApplicationSet |
| Inventory.EchoIgnored | internal/inventory/reconciler.go:51-57 | the echo of an applied file changes neither cache nor queue, whatever they hold |
| Inventory.EnqueuedFileAgrees | internal/inventory/reconciler.go:65-72 | a queued file would be applied with all the object's fields; it hashes to the cached digest, and carries the object's own material, if and only if it can be trimmed without harm |
| Inventory.EventIsLocal | internal/inventory/reconciler.go:84-102 | an event changes cache and queue at its own object only |
| Push.ParseGitHubPushPaths | internal/sync/github.go:44-100 | the error cases, the sha of the head commit or else of `after`, and two sorted lists that hold exactly the added or modified paths and the removed ones that are not among them |
| Push.CollectPaths | internal/sync/github.go:62-80 | the nested loops collect the non-empty paths of all commits |
| Push.PathsByCommit | internal/sync/github.go:64-80 | a non-empty path is reported if and only if some commit lists it |
| Push.DropAdded | internal/sync/github.go:82-85 | added paths are dropped from the removed ones |
| Push.ReportIgnoresOrder | internal/sync/github.go:62-85 | reordering the commits changes neither list |
| Push.ListsApart | internal/sync/github.go:82-97 | the lists are disjoint and free of empty paths |
| Push.PushReportSound | internal/sync/github.go:62-97 | a path reported removed was there and is gone at the head; a changed path present at the head is reported added |
| Push.MentionDecides | internal/sync/github.go:64-80 | the last commit that mentions a path decides whether the head has it |
| Push.MisreportedIff | internal/sync/github.go:82-85 | a path reported added is missing at the head if and only if its last mention removes it |
| Push.ModifyThenRemove | internal/sync/github.go:82-85 | such a push exists |
| Push.SingleCommitExact | internal/sync/github.go:62-97 | a push of one commit reports no path as added that its head lacks |
| Webhook.WebhookHandler.ApplyInventoryYAML | internal/sync/apply.go:73-105 | validation and hashing errors and failing patches leave the cluster alone; otherwise the stamped object is stored |
| Webhook.WebhookHandler.StampedCopy | internal/sync/apply.go:93-98 | the copied annotations plus the stamp |
| Webhook.WebhookHandler.ServeAdded | internal/sync/webhook.go:91-107 | the first loop as a fold over the paths |
| Webhook.WebhookHandler.ServeRemoved | internal/sync/webhook.go:109-140 | the second loop as a fold over the paths |
| Webhook.WebhookHandler.Serve | internal/sync/webhook.go:90-140 | cluster and results after both loops |
| Webhook.OneResultPerPath | internal/sync/webhook.go:90-140 | one result a path, added before removed, in order, and each says what happened to its path in the cluster that the paths before it left |
| Webhook.AppliedIff | internal/sync/webhook.go:91-107 | "applied" is reported if and only if the file was fetched, passed validation and was accepted, and then the object is what the API server made of it; else the cluster is as before |
| Webhook.DeletedIff | internal/sync/webhook.go:109-140 | "deleted" is reported if and only if the object was there and is gone, "already gone" if it was not there, an error if the delete was refused |
| Webhook.AddAllByObject | internal/sync/webhook.go:91-107 | what the first loop does to an object depends on its own paths only |
| Webhook.RemoveAllByObject | internal/sync/webhook.go:109-140 | the second loop deletes an object exactly when one of its paths was removed and the delete is accepted |
| Webhook.RemovalSparesOthersIff | internal/sync/webhook.go:109-140 | removing an object's file deletes no other object if and only if the object's name does not end in ".yml" |
| Webhook.ServedByObject | internal/sync/webhook.go:90-140 | for canonical paths the outcome at an object is one formula without processing order or other files |
| Webhook.UnnamedObjectsUntouched | internal/sync/webhook.go:90-140 | an object that no path names is unchanged |
| Merge.MergedEchoIff | internal/sync/apply.go:101-103 | with merging server-side apply the echo is recognised if and only if the object has no material field, at any depth, that the file lacks, and the file's annotations are carried over; for stampable files the fields alone decide |
| Merge.CarriedUnstampable | internal/sync/apply.go:93-99 | a file whose stamp is no string is not stampable, yet its annotations are carried over when the object has the others already |
| Merge.OwnExportSettles | internal/sync/apply.go:101-103 | an object's own export, applied back by merge, is recognised, and keeps the object's material if and only if it can be trimmed without harm |
| Merge.ExtraRoundSettles | internal/inventory/reconciler.go:65-72 | an echo that is neither recognised nor cached is queued, and once landed and merged back it is recognised |
| Merge.MergeCommutes | internal/inventory/normalize.go:83-103 | normalizing a merged object is merging the normalized ones |
| Merge.MergeIsAppliedIff | internal/sync/apply.go:101-103 | a merge leaves exactly the applied value if and only if nothing else was there, at any depth |

## Left out

- SHA-256, JSON and YAML libraries: functions of a `Library` value under the two assumptions above.
- Finalizers: an object that outlives an accepted delete.
- The Kubernetes client, informers, Git transport, raw-file fetch and HTTP: their answers are parameters (`World`, `Network`, `GetResult`).
- HMAC verification and request limits (`internal/sync/hmac.go`): a gate before the modelled loops.
- Path templates other than the default one of `internal/config/config.go:38`, and template errors.
- Field ownership of server-side apply: a merge keeps fields that the sync side applied before and no longer sends, and lists are replaced as a whole.
- Convergence.Converges: webhooks that fail, arrive out of order or are lost are not part of the runs; nothing in the code retries them (`Convergence.AgreesRoughlyIff` says what remains true).
- Convergence.ConvergesBothSides: the inventory files that pushes by others mention are applicable and at canonical paths, and their report describes the change.
- Worker.DebounceRefinesImmediate: the archived copies may differ from those of the immediate worker and are not compared; runs in which a failing flush races with a different operation on one of its paths are excluded (`Worker.FailedFlush` says why).
- Termination.InternalRunsAreBounded: flushes of the bounded phase succeed; a flush may fail any number of times before it.
- Worker.BatchWorker.Flush: without a repository URL the batch is dropped, which the joint system excludes.
- File-system details of the clone: emptied directories, file modes, temporary-directory errors, and paths into `.git`.
- `strings.ToLower` beyond ASCII, which matters only for kinds other than the two the reconcilers use.
- Batch interval, contexts, logging, leader election: a flush may happen at any step.
- `internal/configmapmaterial` beyond its annotation key, `cmd/`, `internal/bootstrap`, environment parsing.
- `MirrorUpgradeRequest`, un-archiving, dry runs and rebasing: documented, but without an implementation.
