# Verification of the MCMA libraries

This project models six parts of the MCMA libraries and proves what they are relied on for. Every
statement below is about all inputs, all runs or all reachable states of the model, and each main
result has a partner: a specification it refines, an inverse, or an independent reading of its output.

**Locking.** Clients of a document database share one lock record. They race with a conditional
create, verify what they created, judge other records by their timestamps and delete by version.
`LeaseProtocol` is the interleaved system of any number of clients, with requests that fail before or
after they take effect, arrive late or repeat; `LeaseSafety` proves that a client with the lock owns
the record or has outlived its lease, as long as no version is put twice. Firestore's write times
discharge that hypothesis; DynamoDB's one version per instance does not, and `LeaseReuse` proves when
mutual exclusion holds in every run, exactly, with the runs that break it. `LeaseVerification`
proves that every lock rests on a read of the client's own record, and no other read leads to one.
`DocumentDatabaseMutexes` has `lock`, `tryLock` and `unlock` as they are written, running in that system,
with their progress.

**Logging.** `LogSplitting` cuts UTF-16 messages to a number of UTF-8 bytes, `LogBatching` fills
requests greedily, `CloudWatchLogging` is the provider with its queue, its one timer for each addition
and its one asynchronous drainer, and `LogDelivery` proves conservation over every interleaving of
producers, timers and replies, and from which states everything can still be handed over, exactly.

**Releasing.** `PackageOrdering` is the depth-first ordering of the workspace, `ReleaseStaging` and
`ReleaseVerification` the staging job over crashes, lost responses, approvals and retries, and
`GitHubRelease` the tag and release finaliser over any sequence of interrupted runs.

**Queries.** `Filters` is the filter tree and its truth on a document. `Statements` has a lexer and a
parser for the conditions of DynamoDB and Cosmos DB and what the two compilers write; `StatementProofs`
shows that what is written reads back, `ParseConservation` that the parser takes every name between
quotes into its tree, and `Denotations` looks the placeholders up. `DynamoDbFilters`,
`DynamoDbPlaceholders`, `DynamoDbMeaning` and `DynamoDbCollisions`, `CosmosQueries`, `CosmosQueryProofs`
and `CosmosNames`, and `FirestoreQueries` are the three compilers, each with the exact condition on
which a filter keeps its meaning, and `QueryAgreement` compares what the three databases answer.

**Objects and documents.** `PercentEncoding`, `Urls`, `S3Keys` and `S3Locators` take a key through
`encodeURIComponent`, the URL parser and `decodeURIComponent` and back. `TableKeys` and `DynamoDbTables`
make the DynamoDB table a map from ids to resources, with queries of paths, beside its mutexes; `Documents`, `DateStrings` and
`StorageRoundTrips` say which resources come back from DynamoDB and from Firestore as they went in.

**API.** `ApiPipelines` folds middleware, which may throw, around a route, `ApiControllers` finds the route
of a request and answers it through such a pipeline, and
`ListingQueries` turns a query string into a query.

`Wrappers`, `Sequences`, `Text` and `Utf8` hold what several of these need.

Where the code promises less than one would think, it is kept as it is and the exact condition is proved:

- A DynamoDB mutex is exclusive in every run if and only if there is at most one instance or leases
  are never in force; two instances suffice to lose it, when one of them locks again, and even when each
  calls `lock` only once (`LeaseReuse.MutualExclusionExactly`, `LeaseReuse.CalledOnceExclusionExactly`).
- Logged events are never lost from the account, but they may never be sent: every addition sets one timer
  and nothing else starts a drainer, so when a request for the log group or the log stream fails with no
  timer left, the queue stays, and a `flush` without a deadline goes on, until something else is logged
  (`LogDelivery.FailedSetupStrands`, `LogDelivery.StrandedExactly`, `LogDelivery.DeliveryCanFinishExactly`).
- DynamoDB's grammar has no `!=`, which `build-filter-expression.ts` passes on, so a filter that uses it
  is refused (`DynamoDbMeaning.CompilationKeepsMeaning`). Its lookup of a property name among the
  placeholders goes wrong for names that are placeholders of others and for names inherited from
  `Object.prototype`; a filter whose names are words keeps its meaning exactly without either
  (`DynamoDbCollisions.CompilationExactly`).
- A Cosmos DB filter, and a whole query, is misread exactly when a name in it has a quote or a backslash
  (`CosmosNames.FilterReadsExactly`, `CosmosQueryProofs.QueryReadsExactly`). A query with an empty path and
  a filter asks for `WHERE null` and finds nothing (`CosmosQueryProofs.QueryMeansExactly`).
- A Firestore name with a dot is a path into nested fields, so a filter that compiles keeps its meaning
  exactly without dotted names (`FirestoreQueries.MeaningKeptExactly`).
- `S3Locator` does not undo `buildS3Url` for a region `s3` or `s3-...`, nor for a key with a segment
  `.` or `..` (`S3Locators.RoundTripExactly`). Below an endpoint whose path does not end with a slash it
  finds an empty bucket (`S3Locators.EndpointExactly`).
- The ids `x` and `x/x` share a key, and so may an id and a mutex (`TableKeys.KeysCollideExactly`,
  `TableKeys.MutexKeysExactly`, `DynamoDbTables.IsAMapExactly`). A query of a path of one segment also
  selects the resource with that id, and a query of `Mutex` the records of the mutexes
  (`TableKeys.SelectedExactly`, `DynamoDbTables.IsAMapExactly`).
- Resources with null, undefined, a time that is none, a property `__proto__`, or, in DynamoDB, a year
  without four digits or a string that looks like a time do not come back as they were
  (`StorageRoundTrips.DynamoDbRoundTripExactly`, `StorageRoundTrips.FirestoreRoundTripExactly`).
- The list of allowed methods lacks OPTIONS when it is only part of another method's name
  (`ApiControllers.AllowedExactly`).

## Model

| member | source | states |
|---|---|---|
| `LeaseSafety.EveryRunIsSafe` | base/data/lib/document-database/document-database-mutex.ts:34-118 | In every reachable state of any number of clients, with lost, late and repeated requests, a client with the lock owns the record in the store or its lease has run out, and no two clients hold unexpired locks, if no version was put twice |
| `LeaseSafety.StepKeepsInv` | base/data/lib/document-database/document-database-mutex.ts:40-61 | Every step of every client, of the database and of the clock keeps the invariant that ties claims, releases, deletes and the stored record together |
| `LeaseSafety.ClientKeepsClaims` | base/data/lib/document-database/document-database-mutex.ts:41-44 | A client that was told its version was created stays the owner of an unreleased version that answers its own attempt, whatever any client does |
| `LeaseSafety.ClientKeepsReleases` | base/data/lib/document-database/document-database-mutex.ts:105-118 | A released version is claimed by nobody and cannot be claimed again, whatever any client does |
| `LeaseSafety.ClientKeepsDeletes` | base/data/lib/document-database/document-database-mutex.ts:46-54 | Only versions that were released or whose lease has run out are ever asked to be deleted, and only those leave the store |
| `LeaseSafety.DeletesOnlyDeadRecords` | base/data/lib/document-database/document-database-mutex.ts:48-53 | A delete that takes effect removes a released or expired record and never the record of a client whose lock is unexpired |
| `LeaseSafety.FreshVersionsNeverReput` | google-cloud/firestore/lib/firestore-mutex.ts:49-60 | With the write time as version no run puts a version twice, so Firestore needs no hypothesis |
| `LeaseSafety.FixedVersionsNeverReputExactly` | aws/dynamodb/lib/dynamo-db-mutex.ts:25-30 | With one version per instance, no version is put twice if and only if no instance has two puts that take effect |
| `LeaseSafety.RecordsStayWellFormed` | google-cloud/firestore/lib/firestore-mutex.ts:42-47 | From records with a holder and a timestamp the protocol only ever makes such records, so its own sanity check never removes one |
| `LeaseVerification.HoldsExactly` | base/data/lib/document-database/document-database-mutex.ts:41-44 | In every run from between calls or from a sleep: a client holds the lock on a version if and only if the last thing it did was to read a record with its own holder and that very version, and to decide |
| `LeaseVerification.DecisionStands` | base/data/lib/document-database/document-database-mutex.ts:43-44 | A verifying read of its own record leads a client to the lock; one that finds no record, or another holder or version, never does |
| `LeaseVerification.EveryHolderHasVerified` | base/data/lib/document-database/document-database-mutex.ts:41-44 | In every reachable state of the protocol each client that holds the lock has so read its own record |
| `LeaseReuse.MutualExclusionExactly` | aws/dynamodb/lib/dynamo-db-mutex.ts:25-101 | Mutual exclusion holds in every run if and only if versions are fresh per create, or there is at most one instance, or leases are never in force |
| `LeaseReuse.TwoHolders` | aws/dynamodb/lib/dynamo-db-mutex.ts:93-101 | A concrete run without any failed call after which two clients hold an unexpired DynamoDB lock |
| `LeaseReuse.CalledOnceExclusionExactly` | aws/dynamodb/lib/dynamo-db-mutex.ts:25-101 | Instances that are called only once, and never unlocked, are exclusive in every run on exactly the same condition |
| `LeaseReuse.TwoHoldersCalledOnce` | base/data/lib/document-database/document-database-mutex.ts:39-61 | A concrete run in which two instances call `lock` once each and a single reply is lost, after which both hold an unexpired DynamoDB lock, because `lock` puts its record a second time |
| `FirestoreMutexes.VersionStringsNameWriteTimes` | google-cloud/firestore/lib/firestore-mutex.ts:5-7 | The timestamp that a delete rebuilds from a version string is the write time the string was made from |
| `FirestoreMutexes.VersionStringsAreDistinct` | google-cloud/firestore/lib/firestore-mutex.ts:49-67 | Two version strings are equal if and only if the write times are |
| `DocumentDatabaseMutexes.DocumentDatabaseMutex.PutLockData` | google-cloud/firestore/lib/firestore-mutex.ts:54-61 | Creates the record only if there is none; alone it succeeds exactly then, and the record carries its holder, its version and the time of the call |
| `DocumentDatabaseMutexes.DocumentDatabaseMutex.GetLockData` | google-cloud/firestore/lib/firestore-mutex.ts:34-52 | Fails exactly if the call does; otherwise returns the record as stored and leaves it alone; failing moves a verifying client to the stale check |
| `DocumentDatabaseMutexes.DocumentDatabaseMutex.DeleteLockData` | google-cloud/firestore/lib/firestore-mutex.ts:63-68 | Under every script: others act until the request arrives, then the record is removed if and only if the request is not lost and the record still has the given version, and no other record is; without a loss that version is gone |
| `DocumentDatabaseMutexes.DocumentDatabaseMutex.Attempt` | base/data/lib/document-database/document-database-mutex.ts:41-56 | One attempt, under any script: it takes the lock if and only if it read its own record with the version it was given, and throws if and only if the read after a failed attempt fails; otherwise it ends asleep or idle; alone it takes a free record, removes a stale one and leaves any other |
| `DocumentDatabaseMutexes.DocumentDatabaseMutex.PutAndVerify` | base/data/lib/document-database/document-database-mutex.ts:41-44 | The try branch: alone it takes the lock exactly if there was no record; otherwise it leaves the record and goes to the stale check |
| `DocumentDatabaseMutexes.DocumentDatabaseMutex.LookAtRecord` | base/data/lib/document-database/document-database-mutex.ts:45-56 | The catch branch: throws exactly if its read fails; a record that is stale is removed and any other left |
| `DocumentDatabaseMutexes.DocumentDatabaseMutex.RemoveIfStale` | base/data/lib/document-database/document-database-mutex.ts:47-55 | The delete follows if and only if the timestamp of the record plus the lock timeout is past |
| `DocumentDatabaseMutexes.DocumentDatabaseMutex.Lock` | base/data/lib/document-database/document-database-mutex.ts:34-63 | Throws when already locked, and otherwise exactly if the read after a failed attempt fails, as its last step; under every finite script it terminates, and it takes the lock if and only if its last step but one read its own record with the version it keeps; a taken lock is a safe one; alone it needs at most remaining lease / 500 + 3 rounds |
| `DocumentDatabaseMutexes.DocumentDatabaseMutex.TryLock` | base/data/lib/document-database/document-database-mutex.ts:65-103 | Returns whether it holds the lock, which under every script it takes if and only if it read its own record with the version it keeps, and throws exactly as `lock` does; a taken lock is a safe one; alone it fails exactly when a record is there that is not stale by the time it returns, and then leaves it |
| `DocumentDatabaseMutexes.DocumentDatabaseMutex.Unlock` | base/data/lib/document-database/document-database-mutex.ts:105-118 | Throws when not locked; otherwise gives the lock up whatever fails; under every script it asks once for the removal of its own record, which is gone unless the request was lost, and of no other |
| `LogSplitting.ByteSubString` | aws/logger/lib/cloud-watch-logger-provider.ts:173-190 | Returns the longest prefix whose counted size is within the limit, with its counted size |
| `LogSplitting.CutIsLongest` | aws/logger/lib/cloud-watch-logger-provider.ts:173-190 | A prefix within the limit that cannot be extended by one code unit is the one the cut finds |
| `LogSplitting.CutMakesProgress` | aws/logger/lib/cloud-watch-logger-provider.ts:85-95 | With room for four bytes a cut of a non-empty message is never empty, so the split loop terminates |
| `LogSplitting.CountBoundsUtf8` | aws/logger/lib/cloud-watch-logger-provider.ts:173-199 | The counted size is at least the true UTF-8 size of every prefix, even one that ends inside a surrogate pair |
| `LogSplitting.CountExactly` | aws/logger/lib/cloud-watch-logger-provider.ts:173-199 | The count is the UTF-8 size of a prefix and three more for each surrogate pair in it, one for a pair that is cut; so without pairs it is exact |
| `LogSplitting.PairsJoin` | aws/logger/lib/cloud-watch-logger-provider.ts:173-178 | A surrogate pair is read as the code point that it was made of |
| `LogBatching.SplitIsFaithful` | aws/logger/lib/cloud-watch-logger-provider.ts:84-95 | The chunks of a message concatenate back to it, carry its time, are not empty and fit one log event |
| `LogBatching.SplitCoversUtf8` | aws/logger/lib/cloud-watch-logger-provider.ts:86-92 | Every chunk, with its overhead, counts at least what the service will count |
| `LogBatching.SplitIsGreedy` | aws/logger/lib/cloud-watch-logger-provider.ts:85-95 | A chunk that another one follows has no room for one more code unit within 262144 bytes |
| `LogBatching.PrepareDivides` | aws/logger/lib/cloud-watch-logger-provider.ts:79-96 | The prepared chunks divide, event by event and in order, into pieces that concatenate to the message of the event, at its time |
| `LogBatching.DividedTexts` | aws/logger/lib/cloud-watch-logger-provider.ts:79-96 | Chunks so divided say the messages of the events, one after the other |
| `LogBatching.FillConserves` | aws/logger/lib/cloud-watch-logger-provider.ts:98-117 | Batch, held chunk and rest are exactly the prepared chunks, in order |
| `LogBatching.FillIsGreedy` | aws/logger/lib/cloud-watch-logger-provider.ts:104-108 | A batch never exceeds the request limit and is cut only where the next chunk would exceed it |
| `LogBatching.CountedBytesBoundTrueBytes` | aws/logger/lib/cloud-watch-logger-provider.ts:104-114 | The counted size of a batch bounds its true size |
| `LogBatching.PrepareIsGood` | aws/logger/lib/cloud-watch-logger-provider.ts:79-96 | Every prepared chunk of any list of events says something, fits one event and is counted safely |
| `CloudWatchLogging.AwsCloudWatchLoggerProvider.AddLogEvent` | aws/logger/lib/cloud-watch-logger-provider.ts:148-151 | Appends the event to the queue, sets one timer and changes nothing else |
| `CloudWatchLogging.AwsCloudWatchLoggerProvider.OnTimer` | aws/logger/lib/cloud-watch-logger-provider.ts:150 | A timer fires once and runs `processBatch` |
| `CloudWatchLogging.AwsCloudWatchLoggerProvider.ProcessBatch` | aws/logger/lib/cloud-watch-logger-provider.ts:32-40 | Starts a drainer exactly when none runs and something is queued |
| `CloudWatchLogging.AwsCloudWatchLoggerProvider.TakeLogEvents` | aws/logger/lib/cloud-watch-logger-provider.ts:79-96 | Empties the queue into the chunks of all its events, in order |
| `CloudWatchLogging.AwsCloudWatchLoggerProvider.PushChunks` | aws/logger/lib/cloud-watch-logger-provider.ts:84-95 | The loop over one message adds exactly its chunks |
| `CloudWatchLogging.AwsCloudWatchLoggerProvider.SendNextBatch` | aws/logger/lib/cloud-watch-logger-provider.ts:98-146 | Hands the greedy batch over with the current sequence token and keeps the rest |
| `CloudWatchLogging.AwsCloudWatchLoggerProvider.OnReply` | aws/logger/lib/cloud-watch-logger-provider.ts:43-125 | Every reply, failed or not, moves the drainer as the specification of its segment says |
| `LogDelivery.NextKeepsInv` | aws/logger/lib/cloud-watch-logger-provider.ts:32-171 | Every addition, timer and reply keeps the account of all events and the single drainer |
| `LogDelivery.DeliveryIsConserved` | aws/logger/lib/cloud-watch-logger-provider.ts:32-151 | Under every interleaving at most one drainer runs; the chunks handed over and those in its hands divide, event by event and in order, into pieces that say the messages, at their times, of the events that are not queued any more, and the queue is the rest; every request is within the limits of the service and not empty |
| `LogDelivery.FlushMeansHandedOver` | aws/logger/lib/cloud-watch-logger-provider.ts:157-170 | A flush that ends before its deadline means that what was handed over divides into the messages of all events added so far, each once, in order and at its time, and that the texts handed over are these messages, one after the other |
| `LogDelivery.SetupFailureLosesNothing` | aws/logger/lib/cloud-watch-logger-provider.ts:119-124 | After any run that ends with a failed group or stream request no drainer runs, and what was handed over says exactly the events that are not queued; a timer that is left starts a drainer again, and if none is left only another addition can happen, so what is queued need not be delivered |
| `LogDelivery.StrandedExactly` | aws/logger/lib/cloud-watch-logger-provider.ts:119-151 | A step leaves events queued with no drainer and no timer, where before there was one or nothing to do, if and only if a group or stream request fails and no timer is left |
| `LogDelivery.FailedSetupStrands` | aws/logger/lib/cloud-watch-logger-provider.ts:148-170 | One event, its timer and a rejected DescribeLogGroups request: the event stays queued, and without another addition nothing happens any more and a `flush` without a deadline does not end |
| `LogDelivery.DeliveryCanFinishExactly` | aws/logger/lib/cloud-watch-logger-provider.ts:32-170 | After any run, with nothing added any more, timers and replies can hand over every event added so far, once and in order, if and only if a drainer runs, or a timer is left, or the queue says nothing |
| `LogDelivery.FlushCanEndExactly` | aws/logger/lib/cloud-watch-logger-provider.ts:157-170 | With nothing added any more `flush` can end if and only if it could end now, or a drainer runs, or a timer is left |
| `LogDelivery.StaysLive` | aws/logger/lib/cloud-watch-logger-provider.ts:32-151 | As long as no group or stream request fails, or from the next addition on, nothing is stranded in any run |
| `LogDelivery.RequestWithinLimits` | aws/logger/lib/cloud-watch-logger-provider.ts:86-117 | A handed-over request has at most 1048576 bytes and each of its events at most 262144, by their true UTF-8 sizes |
| `LogDelivery.RequestsCarryLastToken` | aws/logger/lib/cloud-watch-logger-provider.ts:132-138 | In every run a step hands over one request at most, with the token of the last PutLogEvents reply that was no failure |
| `LogDelivery.PagesFollow` | aws/logger/lib/cloud-watch-logger-provider.ts:44-72 | In every run a further page of groups is asked for by the token of the last reply, which lacked the name; the first page only if no page was read just before; and the group is created only upon a last page without the name |
| `LogDelivery.NothingSentBeforeSetup` | aws/logger/lib/cloud-watch-logger-provider.ts:43-83 | In every run nothing is handed over before a reply has said that the group is there or made, and another that the stream is made |
| `PackageOrdering.OrderedPackages` | scripts/packages.cjs:12-27 | Returns if and only if the dependency graph has no cycle; then every package is there once, after everything in the workspace it depends on; otherwise it names a package on a cycle |
| `PackageOrdering.OrderExcludesCycles` | scripts/packages.cjs:12-27 | A graph with a correct order has no cycle |
| `PackageOrdering.PathGoesDown` | scripts/packages.cjs:19-23 | Along a dependency path places in a correct order only go down |
| `PackageOrdering.Ordering.Visit` | scripts/packages.cjs:15-24 | Finishes the package and what it depends on, keeps what is done and the set of active packages, or returns a cycle through the named package |
| `PackageOrdering.Ordering.VisitPrerequisites` | scripts/packages.cjs:19-22 | After the loop every workspace package that is listed is in the order |
| `PackageOrdering.Ordering.CloseCycle` | scripts/packages.cjs:17 | Meeting an active package closes a dependency cycle that starts and ends there |
| `PackageOrdering.DependencyNames` | scripts/packages.cjs:19-20 | The names visited are exactly those of the three sections |
| `PackageOrdering.ByName` | scripts/packages.cjs:13 | Every name of the workspace is found, and of two packages with one name the later is meant |
| `ReleaseStaging.StagePackages` | scripts/release.cjs:217-233 | One run: it completes or fails, and it fails if a lookup or a stage fails or loses its response; completed, the published or the pending record of every package is the integrity of the manifest and its commit; undisturbed it stages exactly the unpublished packages, in order, and nothing at all if a published record differs in either |
| `ReleaseStaging.PreflightAll` | scripts/release.cjs:219-223 | Stages nothing; undisturbed it passes if and only if every published record of a package has the integrity of the manifest and its commit |
| `ReleaseStaging.StageMissing` | scripts/release.cjs:224-232 | Stages what the preflight did not find; the first refusal or failure ends the run |
| `ReleaseStaging.StepKeepsInv` | scripts/release.cjs:217-233 | Every lookup, stage, skip, crash, approval and foreign publication keeps the invariant of the staging system |
| `ReleaseStaging.NothingStagedWithoutPreflight` | scripts/release.cjs:218-223 | Over any sequence of runs, a run that has staged anything has looked up every package and found each absent or identical, and stages only absent ones |
| `ReleaseStaging.FailedStageEndsTheRun` | scripts/release.cjs:227-232 | A stage that is refused or whose response is lost ends its run as failed; the package is staged all the same, with the integrity of the manifest and its commit, if only the response was lost |
| `ReleaseStaging.BadLookupStagesNothing` | scripts/release.cjs:160-163 | A lookup that fails, or finds another integrity or another commit, ends its run with nothing staged |
| `ReleaseStaging.PrerequisitesAreReady` | scripts/release.cjs:174-179 | When a package is staged each of its prerequisites is published with the bytes of the manifest or was staged earlier in the same run |
| `ReleaseStaging.CompletedRunCoversEverything` | scripts/release.cjs:217-233 | A completed run leaves every package published with, or staged with, the bytes of the manifest |
| `ReleaseStaging.RetriesMeetNoConflict` | scripts/release.cjs:226-231 | Whatever runs crash and whatever is approved, retries never meet a conflict of their own making |
| `ReleaseStaging.OrderedManifest` | scripts/release.cjs:175-177 | A manifest in the order of the ordering has distinct names and prerequisites first |
| `ReleaseVerification.VerifyPublishedPackages` | scripts/release.cjs:203-209 | Passes if and only if every lookup works and finds a record with the integrity of the manifest and its commit; otherwise names the first package that does not pass |
| `ReleaseVerification.ApprovalsCompleteTheRelease` | scripts/release.cjs:198-209 | After a completed run, the verification passes as soon as nothing of the release is pending, whatever else has happened since |
| `ReleaseVerification.CoverageLasts` | scripts/release.cjs:203-233 | What is published or staged with the bytes of the manifest stays so through any further runs, crashes and approvals |
| `GitHubRelease.GitHub.FinalizeRelease` | scripts/github-release.cjs:26-45 | One run, interrupted anywhere: check mode and unacceptable repositories change nothing, a release is created only when the tag is there and leads to the commit, and a completed create run leaves both; undisturbed it succeeds exactly on acceptable repositories; a tag or a release that it makes is of the commit, and these are all its writes |
| `GitHubRelease.GitHub.ResolveTag` | scripts/github-release.cjs:29-34 | Accepts a tag if and only if the commit is at most five hops away |
| `GitHubRelease.NoOtherEnd` | scripts/github-release.cjs:31-33 | A chain of tags that ends elsewhere is the only chain, so no other way leads to the commit |
| `GitHubRelease.ChainsAgree` | scripts/github-release.cjs:31 | Two chains of tags from one object agree as far as both go |
| `GitHubRelease.RetriesCreateOnce` | scripts/github-release.cjs:38-44 | Over any sequence of interrupted runs tag and release are each created at most once |
| `GitHubRelease.NothingIsReplaced` | scripts/github-release.cjs:38-44 | Tags and releases, once there, are never changed by any run |
| `GitHubRelease.ReleaseIsOfTheTag` | scripts/github-release.cjs:30-44 | Over any history that begins without a release, the release names the commit that the tag leads to |
| `GitHubRelease.CompletedRunDecides` | scripts/github-release.cjs:26-45 | After a completed create run every later run for its commit is acceptable, and none for another commit is |
| `Filters.NormalKeepsMeaning` | base/data/lib/document-database/query/filter.ts:5-29 | The normal form of a filter holds of a document exactly when the filter does |
| `Filters.LeavesExist` | base/data/lib/document-database/query/filter.ts:8-11 | A filter without empty groups has at least one criterion |
| `StatementProofs.StatementReadsAsItsTree` | aws/dynamodb/lib/build-filter-expression.ts:9-36 | The statement written for a filter parses to the tree of the filter, with its groups and its numbering |
| `StatementProofs.StatementIsWritten` | aws/dynamodb/lib/build-filter-expression.ts:17-21 | The statement is a sequence of pieces none of which runs into the next |
| `StatementProofs.ParseGroup` | aws/dynamodb/lib/build-filter-expression.ts:17-21 | The children of a group parse, up to its closing parenthesis, as one conjunction or disjunction |
| `StatementProofs.LexLexemes` | azure/cosmos-db/lib/build-query-definition.ts:25-33 | A well-spaced text reads as the tokens of its pieces |
| `StatementProofs.QuotedExactly` | azure/cosmos-db/lib/build-query-definition.ts:32 | A name between quotes reads as itself, with nothing swallowed, exactly when it has no quote and no backslash |
| `Denotations.TreeDenotes` | aws/dynamodb/lib/build-filter-expression.ts:23-36 | Under maps that hold every placeholder the tree of a filter denotes the normal form of the filter, or is refused for `!=` in DynamoDB |
| `Denotations.StatementMeans` | aws/dynamodb/lib/build-filter-expression.ts:9-36 | Parsing a statement and looking its placeholders up gives the condition of its filter |
| `DynamoDbMeaning.CompilationKeepsMeaning` | aws/dynamodb/lib/build-filter-expression.ts:9-42 | For every filter with non-empty groups for none of whose names the lookup finds something that stands for another name, the statement sent parses and, under the maps sent along, has the truth value of the filter on every document; it is refused exactly if the filter uses `!=`; the placeholders do not clash with those of the key |
| `DynamoDbCollisions.CompilationExactly` | aws/dynamodb/lib/build-filter-expression.ts:9-42 | For every filter with non-empty groups whose names are words without dots, DynamoDB reads the condition of the filter from what is sent if and only if there is no `!=` and no lookup that finds something that stands for another name |
| `DynamoDbCollisions.CriterionExactly` | aws/dynamodb/lib/build-filter-expression.ts:25-30 | A single criterion of any name survives compilation if and only if its name is not `#r` and not inherited and its operator is not `!=` |
| `DynamoDbCollisions.InheritedNameIsRefused` | aws/dynamodb/lib/build-filter-expression.ts:25-35 | A filter with a name inherited from Object.prototype at any place gives a statement that does not parse |
| `DynamoDbCollisions.BracketIsRefused` | aws/dynamodb/lib/build-filter-expression.ts:35 | A text with an opening bracket and without quotes does not parse |
| `DynamoDbMeaning.CriterionResolvesExactly` | aws/dynamodb/lib/build-filter-expression.ts:25-35 | What a criterion is written under is one word that stands for its name in the maps sent if and only if the lookup finds nothing, or what stands for that name |
| `DynamoDbMeaning.FilterResolvesExactly` | aws/dynamodb/lib/build-filter-expression.ts:17-35 | The names of a whole filter are written as words that stand for them if and only if this is so for each in its turn |
| `DynamoDbMeaning.OrdinaryNamesNeverCollide` | aws/dynamodb/lib/build-filter-expression.ts:25 | Names that begin with no number sign and are not inherited never collide |
| `DynamoDbMeaning.NoNameIsPartitionKey` | aws/dynamodb/lib/dynamo-db-table.ts:105-116 | No placeholder of a name is that of the key condition |
| `DynamoDbFilters.CompileIsStatement` | aws/dynamodb/lib/build-filter-expression.ts:9-36 | For every filter, collisions or not, the compiler writes the statement with every name replaced by what the lookup gives it, numbers the values from left to right without gaps, and adds each criterion to the maps in order |
| `DynamoDbFilters.AddedAllSupplies` | aws/dynamodb/lib/build-filter-expression.ts:32-33 | Every value is found under a placeholder of its own in the final map |
| `DynamoDbFilters.AddedAllKeeps` | aws/dynamodb/lib/build-filter-expression.ts:32-33 | A placeholder that is made for a value is always a new one, and none is overwritten |
| `DynamoDbFilters.CompiledFilter` | aws/dynamodb/lib/dynamo-db-table.ts:105-116 | What is sent for a filter: its relabelled statement, its names, and, merged with those of the key condition, its values, none of which takes the placeholder of the key |
| `DynamoDbFilters.DynamoDbExpression.AddFilterExpression` | aws/dynamodb/lib/build-filter-expression.ts:9-15 | Filling the maps in place gives the statement and the maps of the specification |
| `DynamoDbFilters.DynamoDbExpression.AddFilterCriteriaGroup` | aws/dynamodb/lib/build-filter-expression.ts:17-21 | Children are compiled in order against the maps their predecessors left |
| `DynamoDbFilters.DynamoDbExpression.AddFilterCriteria` | aws/dynamodb/lib/build-filter-expression.ts:23-36 | One criterion, with the lookup of its name among the placeholders |
| `DynamoDbPlaceholders.PlaceholdersExactly` | aws/dynamodb/lib/build-filter-expression.ts:23-36 | For every filter and each of its criteria: it is written under a placeholder that stands for its name in the map sent along if and only if its name was not found among the placeholders and inherited names, or was found to stand for itself |
| `DynamoDbPlaceholders.AfterKeepsInv` | aws/dynamodb/lib/build-filter-expression.ts:25-30 | Placeholders stay numbered without gaps, none is overwritten, and no two stand for each other |
| `DynamoDbPlaceholders.CompiledNames` | aws/dynamodb/lib/build-filter-expression.ts:9-30 | The names are filled from left to right, whatever the groups are |
| `CosmosQueries.BuildQueryDefinition` | azure/cosmos-db/lib/build-query-definition.ts:6-56 | The text and the parameters collected in place are those of the specification, for an empty path too: the path first, if there is one |
| `CosmosQueries.SqlQuery.AddFilterExpression` | azure/cosmos-db/lib/build-query-definition.ts:17-33 | A clause is numbered from the parameters collected so far, which grow by its values in order |
| `CosmosQueries.SqlQuery.AddParameter` | azure/cosmos-db/lib/build-query-definition.ts:10-14 | A parameter is appended and named by its index |
| `CosmosQueries.SqlQuery.AddConditions` | azure/cosmos-db/lib/build-query-definition.ts:35-44 | Partition clause and filter clause, whichever there are; a filter without a path becomes `WHERE null` |
| `CosmosQueries.SqlQuery.AddOrder` | azure/cosmos-db/lib/build-query-definition.ts:46-51 | The order is added only for a property to sort by |
| `CosmosQueryProofs.QueryKeepsMeaning` | azure/cosmos-db/lib/build-query-definition.ts:6-56 | For plain names the condition of the SQL, with every @pi looked up, holds of a stored item exactly when the partition key is the path and the filter holds, and of none for a filter without a path; the order is the one asked for |
| `CosmosQueryProofs.QueryMeansExactly` | azure/cosmos-db/lib/build-query-definition.ts:35-44 | For plain names the SQL means the query on every item and under every comparison if and only if there is a path or no filter |
| `CosmosQueryProofs.QueryReadsExactly` | azure/cosmos-db/lib/build-query-definition.ts:6-56 | The whole text of a query reads as the selection it is to be if and only if none of the names written, that of the partition key, of a criterion or of the order, has a quote or a backslash |
| `CosmosQueryProofs.ParametersSupply` | azure/cosmos-db/lib/build-query-definition.ts:10-14 | The path is parameter 0 and the values of the criteria follow from left to right without gaps |
| `CosmosNames.FilterReadsExactly` | azure/cosmos-db/lib/build-query-definition.ts:16-33 | The statement of a filter with non-empty groups reads as its tree if and only if none of its names has a quote or a backslash |
| `CosmosNames.QuotesAreLost` | azure/cosmos-db/lib/build-query-definition.ts:32 | A text with a quote or a backslash in a name between its quotes is not read with the names that were written, if at all |
| `ParseConservation.ParsedNames` | azure/cosmos-db/lib/build-query-definition.ts:25-33 | A condition that parses has in its tree just the names between its quotes, in order, and as many brackets |
| `CosmosNames.QuotedNeverRestored` | azure/cosmos-db/lib/build-query-definition.ts:32 | What is read between the quotes is never a name with a quote or a backslash |
| `FirestoreQueries.BuildFirestoreQuery` | google-cloud/firestore/lib/build-firestore-query.ts:32-47 | The chain of the filter is added, then a non-zero page size and a non-empty token; it throws exactly when the filter does not compile |
| `FirestoreQueries.AddFilterCriteriaGroupToQuery` | google-cloud/firestore/lib/build-firestore-query.ts:14-24 | The loop adds the chains of all children in order, or throws what the first bad one throws |
| `FirestoreQueries.AddFilterToQuery` | google-cloud/firestore/lib/build-firestore-query.ts:26-30 | A filter adds its chain to a query or throws |
| `FirestoreQueries.CompilesExactly` | google-cloud/firestore/lib/build-firestore-query.ts:5-24 | A filter compiles if and only if it has no disjunction and no `!=`, and each error names something the filter has |
| `FirestoreQueries.MeaningKeptExactly` | google-cloud/firestore/lib/build-firestore-query.ts:5-30 | A filter that compiles keeps its meaning on all documents, whatever is compared and whatever nested fields hold, if and only if none of its names has a dot |
| `FirestoreQueries.ChainKeepsMeaning` | google-cloud/firestore/lib/build-firestore-query.ts:5-30 | The chain accepts exactly the documents on which the filter holds, for names without dots |
| `FirestoreQueries.DottedNamesNest` | google-cloud/firestore/lib/build-firestore-query.ts:11 | A criterion with a dotted name compares a nested field instead |
| `QueryAgreement.AllAgreeExactly` | google-cloud/firestore/lib/build-firestore-query.ts:5-30 | For every filter with non-empty groups whose names are words, possibly dotted: Cosmos DB and DynamoDB read it as it is meant and Firestore answers with its truth value if and only if it has no `!=`, no disjunction, no dotted name and no colliding name, and the name of the partition key is plain |
| `QueryAgreement.BackendsAgree` | google-cloud/firestore/lib/build-firestore-query.ts:5-30 | For plain undotted names that do not collide, on every document Cosmos DB answers with the truth value of the filter, DynamoDB does so exactly without `!=`, and Firestore exactly without `!=` and disjunctions; elsewhere these two refuse |
| `QueryAgreement.FirestoreExactly` | google-cloud/firestore/lib/build-firestore-query.ts:5-30 | Firestore answers every document with the truth value of the filter if and only if it has no `!=`, no disjunction and no dotted name |
| `Utf8.DecodeInvertsEncode` | aws/s3/lib/s3-locator.ts:27 | Decoding the UTF-8 form of a scalar value gives it back (section 3 of RFC 3629) |
| `PercentEncoding.DecodeInvertsEncodeURIComponent` | aws/s3/lib/helpers.ts:21 | decodeURIComponent undoes encodeURIComponent on every well-formed Unicode string (section 2.1 of RFC 3986) |
| `PercentEncoding.EncodeCharExactly` | aws/s3/lib/helpers.ts:17-24 | Letters, digits and nine marks stand for themselves; any other character becomes capital escapes of the bytes of its UTF-8 form |
| `S3Keys.KeyPathIsPieces` | aws/s3/lib/helpers.ts:21-23 | Encoding and both replacements write a key one character at a time, a space as plus and a slash as itself |
| `S3Keys.ReadInvertsWrite` | aws/s3/lib/s3-locator.ts:27 | Replacing pluses and decoding gives a written text back, whatever it contains |
| `S3Keys.SegmentsOfWritten` | aws/s3/lib/helpers.ts:21-23 | The segments of a written path are the written segments of the key |
| `S3Keys.KindOfWritten` | aws/s3/lib/s3-locator.ts:26 | The URL parser takes a written segment for dots only if the key has dots there |
| `S3Keys.WrittenReadsAsNormal` | aws/s3/lib/s3-locator.ts:26-27 | The path name of a written address reads as the key with its dot segments worked out |
| `S3Keys.NormalExactly` | aws/s3/lib/s3-locator.ts:26 | Working dot segments out changes a key if and only if it has one |
| `Urls.ParseAddress` | aws/s3/lib/s3-locator.ts:26 | An address with a plain lower-case host parses to that host and the path with its dots worked out |
| `Urls.NothingElseIsLeft` | aws/s3/lib/s3-locator.ts:26 | No dot segment is left in the path name of a URL |
| `S3Locators.RoundTripExactly` | aws/s3/lib/s3-locator.ts:26-83 | For every key, valid bucket and region label, S3Locator of buildS3Url is the same region, bucket and key if and only if no segment of the key is `.` or `..` and the region does not look like the old style |
| `S3Locators.RegionExactly` | aws/s3/lib/s3-locator.ts:56-69 | The region of the host name is found if and only if it is not `s3` and does not begin with `s3-` |
| `S3Locators.FromPathExactly` | aws/s3/lib/s3-locator.ts:73-79 | Bucket and key are taken apart exactly where they were put together |
| `S3Locators.DotlessLocated` | aws/s3/lib/helpers.ts:23 | A bucket without dots is found in the host name |
| `S3Locators.DottedLocated` | aws/s3/lib/helpers.ts:21 | A bucket with dots is found in the path |
| `S3Locators.EndpointExactly` | aws/s3/lib/s3-locator.ts:31-54 | For an address below an endpoint that is not on AWS, bucket and key are found if and only if the endpoint has no path or one that ends with a slash |
| `S3Locators.OldStyleLocated` | aws/s3/lib/s3-locator.ts:56-83 | For every bucket, region and key without dot segments, in the path or in the host name: an address on s3.amazonaws.com gives us-east-1, bucket and key, and one on s3-region.amazonaws.com gives the region, bucket and key |
| `S3Locators.HostStyleLocated` | aws/s3/lib/s3-locator.ts:56-83 | With a bucket of any number of labels in the host name, each of the three styles of naming the region gives region, bucket and key |
| `S3Locators.PathStyleLocated` | aws/s3/lib/s3-locator.ts:56-83 | So it does with the bucket in the path |
| `S3Locators.RefusedExactly` | aws/s3/lib/s3-locator.ts:56-70 | A host name on AWS is refused if and only if it has none of the three styles |
| `S3Locators.MismatchExactly` | aws/s3/lib/s3-locator.ts:16-24 | An address is refused for its endpoint if and only if there is an endpoint and the address does not begin with it |
| `S3Locators.NoBucketExactly` | aws/s3/lib/s3-locator.ts:45-53 | A path has no bucket if and only if no slash follows; otherwise the bucket ends at the first one and the key is all that follows it |
| `S3Locators.ElsewhereLocated` | aws/s3/lib/s3-locator.ts:29-54 | Away from AWS and without an endpoint the bucket is the first part of the path, the key the rest, and there is no region |
| `S3Locators.S3Locator.Initialize` | aws/s3/lib/s3-locator.ts:16-84 | The fields are those of the specification, or it throws as the specification says |
| `S3Locators.S3Locator.UseHost` | aws/s3/lib/s3-locator.ts:56-83 | Region from the host name, bucket and key from wherever its style puts them |
| `S3Locators.S3Locator.UsePath` | aws/s3/lib/s3-locator.ts:45-53 | The bucket ends at the next slash; none is an error |
| `TableKeys.KeysCollideExactly` | aws/dynamodb/lib/dynamo-db-table.ts:34-39 | Two ids share a key if and only if they are equal or one is a slash-free text and the other that text twice with a slash between |
| `TableKeys.RootedKeysAreDistinct` | aws/dynamodb/lib/dynamo-db-table.ts:34-39 | The split is injective on ids that begin with a slash |
| `TableKeys.MutexKeysExactly` | aws/dynamodb/lib/dynamo-db-mutex.ts:32-41 | An id has the key of a mutex if and only if it is the name under `Mutex`, or `Mutex` itself |
| `TableKeys.RootedKeysAreNoMutexes` | aws/dynamodb/lib/dynamo-db-mutex.ts:32-56 | Ids that begin with a slash never have the key of a mutex |
| `TableKeys.SelectedExactly` | aws/dynamodb/lib/dynamo-db-table.ts:103-107 | A query of a path selects exactly what is directly under it and, for a path of one segment, the path itself |
| `TableKeys.DeepPathsSelectTheirChildren` | aws/dynamodb/lib/dynamo-db-table.ts:103-107 | A query of a path of at least two segments selects exactly what is directly under it |
| `DynamoDbTables.IsAMapExactly` | aws/dynamodb/lib/dynamo-db-table.ts:103-228 | Every sequence of put, get, delete and query, with mutexes at work in between, is answered as by a plain map from ids to resources that lists what is directly under a path, if and only if no two ids share a key, none has the key of a mutex, no path queried is itself an id of one segment, and the partition of the mutexes is not queried where there are any |
| `DynamoDbTables.RootedIdsAreAMap` | aws/dynamodb/lib/dynamo-db-table.ts:103-228 | On ids and paths that begin with a slash, no path being an id of one segment, the table is a plain map |
| `DynamoDbTables.StepsAgree` | aws/dynamodb/lib/dynamo-db-table.ts:103-228 | One operation keeps table and map in agreement and answers alike |
| `DynamoDbTables.QueriesAgree` | aws/dynamodb/lib/dynamo-db-table.ts:103-146 | A query lists exactly the resources of the map directly under the path |
| `DynamoDbTables.DynamoDbTable.PutResource` | aws/dynamodb/lib/dynamo-db-table.ts:185-212 | Stores the serialised resource under the keys of the id and returns the resource |
| `DynamoDbTables.DynamoDbTable.GetResource` | aws/dynamodb/lib/dynamo-db-table.ts:169-183 | Returns the deserialised resource, or null if there is no item or it has no resource |
| `DynamoDbTables.DynamoDbTable.DeleteResource` | aws/dynamodb/lib/dynamo-db-table.ts:214-228 | Removes the item of the id and no other |
| `DynamoDbTables.DynamoDbTable.QueryResources` | aws/dynamodb/lib/dynamo-db-table.ts:103-146 | Returns, under its sort key, the deserialised resource of every item of the partition, and undefined for one without |
| `Documents.CopyValue` | aws/dynamodb/lib/dynamo-db-table.ts:67-101 | The recursive copy is the specified one, or throws exactly where Firestore is given a time that is none |
| `Documents.CopyItems` | google-cloud/firestore/lib/firestore-mcma-data-converter.ts:4-20 | The loop over an array gives the copied elements, with holes where nothing is assigned |
| `Documents.CopyFields` | google-cloud/firestore/lib/firestore-mcma-data-converter.ts:8-17 | The loop over an object gives the copied properties, except `__proto__` |
| `DateStrings.IsoIsDateString` | base/core/lib/utils.ts:57-61 | A time written by toISOString matches the pattern if and only if its year has four digits |
| `DateStrings.IsDateStringExactly` | base/core/lib/utils.ts:57-61 | The pattern takes exactly a date with hours and minutes, then or not seconds, then or not a fraction of one digit or more, then Z or an offset, each with its bounded digits |
| `DateStrings.NewDateInverts` | aws/dynamodb/lib/dynamo-db-table.ts:92-93 | Reading a written time with a year of four digits gives it back |
| `StorageRoundTrips.DynamoDbRoundTripExactly` | aws/dynamodb/lib/dynamo-db-table.ts:67-101 | A resource comes back from DynamoDB as it was put if and only if it has no null, nothing undefined, no `__proto__`, only times with years of four digits, and no string that matches the date pattern |
| `StorageRoundTrips.FirestoreRoundTripExactly` | google-cloud/firestore/lib/firestore-mcma-data-converter.ts:4-38 | A resource comes back from Firestore as it was put if and only if it has no null, nothing undefined, no `__proto__` and no time that is none, whatever its years and strings are |
| `StorageRoundTrips.LostInDynamoDb` | aws/dynamodb/lib/dynamo-db-table.ts:67-101 | What comes back instead: nothing for null and `__proto__`, an empty object for a time that is none, a text for a year without four digits, and a time for a text that looks like one |
| `StorageRoundTrips.LostInFirestore` | google-cloud/firestore/lib/firestore-mcma-data-converter.ts:4-38 | What comes back instead: nothing for undefined and `__proto__`; null, a time that is none and a hole in an array are refused |
| `StorageRoundTrips.CopyKeepsNames` | aws/dynamodb/lib/dynamo-db-table.ts:67-101 | Copies have distinct property names at every level |
| `ApiControllers.ProcessRoute` | base/api/lib/http/mcma-api-controller.ts:56-166 | The loop and what follows it answer as the specification says, or throw what the handler throws |
| `ApiControllers.TryRoutes` | base/api/lib/http/mcma-api-controller.ts:79-99 | Only the handler of the first route with template and method is called; otherwise the response is untouched and the methods of the matching routes are collected in order |
| `ApiControllers.AnswerUnmatched` | base/api/lib/http/mcma-api-controller.ts:109-154 | 405, or 200 for OPTIONS, with the list in the header that the request calls for |
| `ApiControllers.McmaApiController.HandleRequest` | base/api/lib/http/mcma-api-controller.ts:34-54 | Every request is answered: by what comes out of the pipeline, with the default headers to start from, or with 500 and fresh headers if it throws |
| `ApiControllers.McmaApiController.Execute` | base/api/lib/http/mcma-api-controller.ts:22-31 | Running the closures of the pipeline changes the response in place as the specification of the pipeline says, errors included |
| `ApiControllers.AnsweredThroughLayers` | base/api/lib/http/mcma-api-controller.ts:19-54 | The answer is what comes out of the middleware that went on, around the route or around the middleware that refused; it is 500 with fresh headers and a body, whatever was done before, if something is thrown and no middleware around it catches it |
| `ApiControllers.HandledByFirst` | base/api/lib/http/mcma-api-controller.ts:81-164 | A request with a good body is answered by what the handler of the first route with its template and method makes of the response, with 200 where it set no status and a body where it set an error; what the handler throws is thrown |
| `ApiControllers.BadBodyIsRefused` | base/api/lib/http/mcma-api-controller.ts:64-76 | A request with a body that is not the JSON it claims to be is answered 400, with a body, whatever routes there are |
| `ApiControllers.UnmatchedExactly` | base/api/lib/http/mcma-api-controller.ts:117-154 | A refusal has a body; only a CORS pre-flight request is told which headers are allowed, namely those it asks for |
| `ApiControllers.AnsweredExactly` | base/api/lib/http/mcma-api-controller.ts:81-154 | A route is the one chosen if and only if it is the first with the template and the method, and then the reply is that of its handler, finished; a path with routes but none with the method is answered 405 or 200 with all its methods |
| `ApiControllers.RefusalNamesMethods` | base/api/lib/http/mcma-api-controller.ts:109-148 | A refusal carries, in Allow or in its CORS counterpart, exactly the methods of all routes with the template, in order, and OPTIONS |
| `ApiControllers.NotFoundExactly` | base/api/lib/http/mcma-api-controller.ts:101-108 | When no handler runs the answer is 404 if and only if no route has the template (section 15.5.5 of RFC 9110), with fresh headers and a body |
| `ApiControllers.AllowedExactly` | base/api/lib/http/mcma-api-controller.ts:85-115 | The header lists exactly the methods of the matching routes in order, with OPTIONS added unless some method contains it; OPTIONS is missing exactly when it is only part of other names (section 10.2.1 of RFC 9110) |
| `ApiControllers.ContainsInJoin` | base/api/lib/http/mcma-api-controller.ts:110 | A word without separators is found in the list if and only if it is found in one of the methods |
| `ApiPipelines.BuildPipeline` | base/api/lib/http/mcma-api-controller.ts:19-32 | The loop from the last middleware to the first nests them in the order of declaration |
| `ApiPipelines.LayersAreNested` | base/api/lib/http/mcma-api-controller.ts:22-31 | A request passes the middleware in order up to the first that throws or does not go on, the route runs exactly if all go on, and what comes of this passes those that went on in the opposite order |
| `ApiPipelines.ThrownIsThrownOn` | base/api/lib/http/mcma-api-controller.ts:25-27 | What is thrown inside comes out as it is, with nothing done after it, if no middleware around it catches |
| `ListingQueries.QueryStringParameters.BuildStandardQuery` | base/api/lib/routing/defaults/default-query-route.ts:66-107 | Each reserved parameter is taken if it is not empty, and everything that remains becomes the filter |
| `ListingQueries.ConsumedExactly` | base/api/lib/routing/defaults/default-query-route.ts:70-95 | A parameter is consumed if and only if its name is reserved and its value is not empty |
| `ListingQueries.ValueInExactly` | base/api/lib/routing/defaults/default-query-route.ts:70-95 | The value taken for a name is that of the one parameter with the name, and empty without one |
| `ListingQueries.ListingFilterMeans` | base/data/lib/document-database/query/helpers.ts:4-9 | The filter holds of a document exactly when every remaining parameter equals the property of its name |
| `ListingQueries.FourTaken` | base/api/lib/routing/defaults/default-query-route.ts:70-95 | Taking the reserved parameters one after the other leaves exactly the others, in order |

## Left out

- LeaseSafety.EveryRunIsSafe: one lock timeout for all clients of a mutex, and one clock; clock skew between clients is not modelled.
- LeaseReuse.MutualExclusionExactly: instance identifiers are taken to be distinct, although the code draws them at random.
- DocumentDatabaseMutexes.DocumentDatabaseMutex.Lock: two calls of `lock` on one instance at the same time are not modelled; the methods run against any finite script of what others do and which calls fail, and alone after it.
- CosmosDbMutex: its create rests on how the SDK treats an upsert with a null condition, which is not part of this model.
- Removal of malformed lock records, which needs a change from outside; `LeaseSafety.RecordsStayWellFormed` shows that the protocol makes none.
- LogDelivery.DeliveryIsConserved: `toString` of an event is taken to be total; a failed `PutLogEvents` counts as handed over, as in the code, which only logs it; when a timer fires is left open; the array that the code hands to the client and then empties is a value here.
- LogDelivery.FlushMeansHandedOver: the polling of `flush` and its deadline are not modelled, only the condition on which it ends.
- The limit of 10,000 events per request, which the code does not enforce.
- ReleaseStaging.StagePackages: hashes, tarballs, the identity checks of `releaseManifest` and the npm command line are not modelled; a version is its integrity and its commit.
- GitHubRelease.GitHub.FinalizeRelease: runs are sequential, as the workflow makes them; HTTP is reduced to calls that fail before or after they take effect.
- DynamoDbMeaning.CompilationKeepsMeaning: for names with dots, spaces or other characters that are not part of words only this direction is proved, because a name that is found becomes text of the statement, which may read right by chance: of the criteria `#a2`, `#a1 ` with a space, and `#a2`, the third is written under a text that is no placeholder and is read as one. Empty groups, for which the code writes an empty operand, are outside the statement.
- DynamoDbCollisions.CompilationExactly: it is about the condition that is read. A misread criterion may still leave the truth value alone by chance, as when it repeats another criterion of the same conjunction.
- Statements.Parse: what DynamoDB refuses besides, such as redundant parentheses, which a group with a single group as child prints, reserved words and the limits on the size of an expression, is not part of this model.
- QueryAgreement.BackendsAgree: how a database compares values, and what it makes of a missing property, is a parameter common to all three; where each refuses texts for reasons outside the grammar is not modelled; page tokens and index names are not modelled.
- FirestoreQueries.MeaningKeptExactly: Firestore's own limits on combining inequalities in one query, and the characters `~`, `*`, `/`, `[` and `]` that its field paths forbid, are not part of this model.
- Urls.ParseAddress: user information, IPv4 and IPv6 hosts, internationalised labels and path characters that the parser would encode are outside the model, which reports such addresses as invalid.
- S3Locators.RoundTripExactly: the lookup of a bucket's region is left out; keys are sequences of Unicode scalar values, so lone surrogates, on which `encodeURIComponent` throws, do not occur.
- DynamoDbTables.IsAMapExactly: tables have a sort key, calls do not fail, and top-level attribute mappings are not modelled; queries are without a filter, within one page, and their order is not modelled; that DynamoDB refuses empty key values is not part of this model.
- DateStrings.NewDateInverts: a string that matches the pattern but is not written as toISOString writes is read as a time that is left open; the lengths of months are not modelled.
- StorageRoundTrips.DynamoDbRoundTripExactly: numbers are real numbers; that the DynamoDB client refuses NaN, the infinities and numbers beyond the safe integers is not part of this model.
- StorageRoundTrips.FirestoreRoundTripExactly: the client's conversion between times and timestamps is taken to be exact; that Firestore takes no array directly inside an array and no time outside the years 1 to 9999 is not part of this model; functions, binary data and other classes of objects are not modelled.
- ApiControllers.ProcessRoute: URI templates are an abstract predicate, path variables are not modelled, header names are in lower case, a body is either acceptable or not, and response bodies are reduced to whether there is one.
- ApiPipelines.LayersAreNested: a middleware calls the rest of the pipeline at most once, and what it does after the call depends on what the call comes to and not on what it kept from before.
- ListingQueries.QueryStringParameters.BuildStandardQuery: `parseInt` is an abstract function.
- `getLogger`, authenticators, the API key middleware, `HttpClient`, `ResourceManager`, configuration variables and model constructors: they would only add easy members.
- `CosmosDbTable`, whose retry returns the promise without awaiting it, and job assignment updates, whose final states nothing guards.
