# Verification of the account manager's stateful core

Each file models one part of the backend's hardest logic and proves what that part is for. Code that updates objects
step by step is a class or a loop over arrays, proved against functions on values; protocols in which several
processes interleave are state machines; the properties are lemmas about those functions and machines.

- `CheckpointTracking`, `ConsumerRuns`, `AtLeastOnce`, `EventConsumer`: the Event Hubs consumer. Partition trackers,
  the checkpoint file store and the rotating Receive, as functions on values (the first two), as a machine of
  receives, acknowledgements, failed persists, crashes and restarts (the third), and as the objects the program
  updates (the fourth).
- `SchemaMigrations`, `Migrator`: any number of concurrent migrators over one `schema_migrations` table, as a machine
  of statements, and the loop one process runs.
- `AppCertificates`, `CertificateStore`: certificate rotation under READ COMMITTED, as a machine of transactions, and
  the statements one request issues.
- `HandoffEvidence`: the byte strings hashed into handoff and deletion receipts, and what an accepted receipt pins
  down. The hash is an arbitrary function. Each result about receipts ends "or these two byte strings collide", so
  none rests on a false injectivity assumption.
- `SignupLimiter`: the fixed-window limiter with lazy eviction, over whole runs.
- `Channel`, `LifecyclePublisher`: the message contract with its strict decoding and validators, and the translation
  of a lifecycle command into a request and a result event.
- `Prometheus`, `ViewerScope`, `JsonDepth`, `ChipsetManifest`, `ServiceCrl`: printers, normalisers and selection loops.
- `Wrappers`, `Text`, `Decimal`, `Rfc3339`: optional values, strings, decimal numbers and times as Go's libraries treat
  them.

The disk, the network, the clock, the database's answers and the moves of other processes are parameters. A text is a
sequence of characters; `Text.ByteLength` counts its UTF-8 bytes where the program measures bytes. The hashed fields and
metric texts are sequences of bytes written as characters.

Assumptions about the surroundings: a partition delivers its events in strictly increasing sequence order, gives no
more than were asked for, and never a nil event; one Receive runs at a time; only acknowledgements made for delivered
messages occur; all migrators read the same directory and no migration body writes `schema_migrations`; `now()` is
fixed within a transaction, a row or advisory lock is held until its transaction ends, and waiting ends with the
lock or with a timeout.

Findings. Some properties hold in a sharper or narrower form than one might expect:

- The store's disk can go back after a failed first read (`AtLeastOnce.FailedLoadForgetsTheRest`); delivery is safe even then.
- The limiter admits at most 2 * limit - 1 calls in any interval of one window's length, not 2 * limit, and reaches that.
- A result event can be built exactly when the clock's year lies between 0 and 9999, because JSON refuses other years.
- Distinct releases can be refused as duplicates when a name or version holds a NUL (`ChipsetManifest.DistinctReleasesRefused`);
  `ChipsetManifest.ReleaseKeysExact` says exactly when keys are faithful.

## Model

| member | source | states |
|---|---|---|
| `AtLeastOnce.RestartSkipsNothing` | internal/broker/azure_eventhubs.go:311-350 | At-least-once: after any run of receives (complete, failing part-way, discarding messages), acknowledgements, failed persists, crashes and reopenings, no event at or below a checkpoint on disk is unacknowledged, so the next process starts at or before every unacknowledged event of every partition. |
| `AtLeastOnce.NextInv` | internal/broker/azure_eventhubs.go:386-411 | Every step of the consumer keeps the invariant that each fetched event is committed, tracked, or sits behind an entry that no message can acknowledge. |
| `AtLeastOnce.ConsumeKeeps` | internal/broker/azure_eventhubs.go:337-346 | A batch that fails to decode half-way is safe because tracking precedes decoding: the undecodable event blocks the unread rest of the batch. |
| `AtLeastOnce.AcknowledgeKeeps` | internal/broker/azure_eventhubs.go:478-519 | Whatever acknowledge asks the store to record covers only acknowledged events, whether or not the store accepts it. |
| `AtLeastOnce.FailedReceiveDrops` | internal/broker/azure_eventhubs.go:328-341 | A Receive that fails leaves every number it tracked dropped (tracked, unacknowledged, its message in nobody's hands), and every event it fetched, read or not, dropped or above a dropped one. |
| `AtLeastOnce.DroppedBlocksUntilRestart` | internal/broker/azure_eventhubs.go:478-519 | Any one step but a restart leaves a dropped number dropped, and asks the store for nothing at or above it. |
| `AtLeastOnce.DroppedForTheSession` | internal/broker/azure_eventhubs.go:478-519 | Over any number of steps without a restart a dropped number stays dropped and unacknowledged, its tracker never commits it or a higher number, and no checkpoint in memory or on disk that was below it reaches it. |
| `AtLeastOnce.FailedReceiveCommitsNothing` | internal/broker/azure_eventhubs.go:311-350 | Until the next restart nothing a failed Receive fetched is ever committed: not the messages it decoded and discarded, not the event that did not decode, not the rest of the batch. |
| `AtLeastOnce.UndecodableIsNeverPassed` | internal/broker/azure_eventhubs.go:394-397 | In every run through any number of restarts, an event that does not decode is never acknowledged and every checkpoint of its partition, in memory and on disk, stays below it. |
| `AtLeastOnce.DiskNeverGoesBack` | internal/broker/azure_eventhubs.go:589-607 | Once a session has read the file, no checkpoint on disk moves back in any run whose restarts can read the file. |
| `CheckpointTracking.RunForm` | internal/broker/azure_eventhubs.go:447-519 | Every run of a tracker, with a store that fails at will, is determined by the numbers tracked, the set acknowledged and how many are stored. |
| `CheckpointTracking.AcknowledgementOrderIsIrrelevant` | internal/broker/azure_eventhubs.go:459-519 | With a store that never fails, the final tracker depends on the set of acknowledgements and not on their order or interleaving. |
| `CheckpointTracking.CommittedIsLargestClear` | internal/broker/azure_eventhubs.go:506-518 | After an acknowledgement that reaches the store successfully, the committed number is the largest tracked number with nothing unacknowledged at or below it. |
| `ConsumerRuns.ReceiveIsComplete` | internal/broker/azure_eventhubs.go:311-350 | A successful Receive returns every event it fetched, partition by partition and in order, and never more than asked; when it returns fewer it polled every partition exactly once. |
| `ConsumerRuns.EveryPartitionOnce` | internal/broker/azure_eventhubs.go:371-378 | n consecutive turns of the rotating index poll n partitions once each, wherever the index stands. |
| `EventConsumer.Consumer.Receive` | internal/broker/azure_eventhubs.go:311-350 | Receive leaves exactly the receivers, index, messages and failure flag of the specified poll loop; a failed call returns no messages. |
| `EventConsumer.Consumer.Rotate` | internal/broker/azure_eventhubs.go:323-349 | The loop over partitions, with its early exits, computes the specified sequence of polls. |
| `EventConsumer.PartitionTracker.Track` | internal/broker/azure_eventhubs.go:459-476 | track appends the number unless it is committed or already tracked. |
| `EventConsumer.PartitionTracker.Acknowledge` | internal/broker/azure_eventhubs.go:478-519 | acknowledge flags or appends the number, asks the store for the acknowledged head, and drops that head only when the store accepts it. |
| `EventConsumer.PartitionTracker.AcknowledgedPrefixLocked` | internal/broker/azure_eventhubs.go:521-529 | The scan finds exactly the acknowledged head and its last number. |
| `EventConsumer.FileCheckpointStore.LoadLocked` | internal/broker/azure_eventhubs.go:609-636 | Loading counts as done before the file is read; a missing file is an empty store, an unreadable or malformed one an error. |
| `EventConsumer.FileCheckpointStore.StartPosition` | internal/broker/azure_eventhubs.go:570-587 | A start position is the one after the checkpoint, or the earliest event when there is none or the load failed. |
| `EventConsumer.FileCheckpointStore.PersistLocked` | internal/broker/azure_eventhubs.go:638-657 | The file is replaced by the memory as a whole or left as it was. |
| `EventConsumer.FileCheckpointStore.Record` | internal/broker/azure_eventhubs.go:589-607 | record never lowers a checkpoint in memory, and updates memory before the file. |
| `EventConsumer.MessageFromEvent` | internal/broker/azure_eventhubs.go:386-411 | An event is tracked before its body is decoded, so also when decoding fails. |
| `EventConsumer.OpenPartitions` | internal/broker/azure_eventhubs.go:282-309 | Every partition is opened right after its checkpoint, with a fresh tracker. |
| `EventConsumer.NewConsumer` | internal/broker/azure_eventhubs.go:266-280 | A new consumer holds one receiver a partition, opened in partition order. |
| `SchemaMigrations.MarksAreConserved` | internal/database/database.go:89-144 | In every interleaving of any number of migrators with failures, the marked set is the disjoint union of the initial marks, the executed bodies and the adopted names; no body commits twice, when marked before, or when one of its historical names is marked. |
| `SchemaMigrations.MigratorsFinishInOrder` | internal/database/database.go:87-145 | Each file marked since the start has every earlier file marked; a migrator that returns without error, having lost any races, leaves every file marked; at most one process is inside the lock. |
| `SchemaMigrations.AdoptionsKeepTheOldestTimestamp` | internal/database/migration_aliases.go:15-41 | An adopted name carries the oldest applied_at among its marked historical names. |
| `SchemaMigrations.OldestIsMinimum` | internal/database/migration_aliases.go:38-39 | min(applied_at) exists exactly when a historical name is marked, is one of their timestamps, and is below all of them. |
| `SchemaMigrations.AliasesSortBefore` | internal/database/migration_aliases.go:16-30 | Every historical name of a renamed migration sorts before its new name. |
| `SchemaMigrations.InsertNeverConflicts` | internal/database/database.go:133-140 | Whoever is about to insert a marker holds the lock over a name nobody has marked, so the primary key never rejects it. |
| `SchemaMigrations.NextInv` | internal/database/database.go:89-144 | Every statement of every process keeps the invariant of the shared database. |
| `Migrator.SchemaDatabase.Migrate` | internal/database/database.go:67-146 | Migrate's loop, interleaved with any moves of other processes, is a run of the machine; when it returns true every file is marked. |
| `Migrator.SchemaDatabase.Transaction` | internal/database/database.go:94-144 | The transaction for one file: lock, recheck, adopt or execute and mark, commit; it ends at the next file or as failed. |
| `AppCertificates.OneActiveCertificatePerUser` | internal/store/app_certificates.go:88-144 | In every interleaving of certificate-creating transactions with rollbacks and lost commits, each user has at most one committed unrevoked certificate. |
| `AppCertificates.RevocationsArePermanent` | internal/store/app_certificates.go:111-118 | At any point of any run, a row revoked by then, before the run or during it, keeps its revocation time and all else through everything that follows. |
| `AppCertificates.OneFingerprintIsAuthorized` | internal/store/app_certificates.go:14-34 | At most one fingerprint of a user is authorised at a time. |
| `AppCertificates.LookupHasOneCandidate` | internal/store/app_certificates.go:55-73 | The lookup of a user's valid certificate never has two rows to order. |
| `AppCertificates.InsertMeetsNoActiveRow` | migrations/027_end_user_app_bindings.sql:27-29 | The unique index on active certificates never rejects a user's insert: every active row is one the transaction itself has revoked. |
| `AppCertificates.CommitRotates` | internal/store/app_certificates.go:111-140 | A commit for a user leaves the inserted certificate as the only active one. |
| `AppCertificates.NextInv` | internal/store/app_certificates.go:88-144 | Every statement, lock wait, rollback and commit keeps the invariant, and committed rows change only by being revoked once. |
| `CertificateStore.Store.Create` | internal/store/app_certificates.go:88-144 | CreateAppCertificate, interleaved with any other transactions, is a run of the machine; when it returns a certificate that certificate is the subject's active one, and for a user the only one. |
| `CertificateStore.StepFollows` | internal/store/app_certificates.go:88-144 | Where one statement can take a request, and what a confirmed commit has published. |
| `HandoffEvidence.DecodesExactlyShort` | internal/factoryhandoff/client.go:120-130 | The length-prefixed encoding decodes back for exactly the lists whose fields are all shorter than 2^32 bytes. |
| `HandoffEvidence.EncodeDecode` | internal/factoryhandoff/client.go:120-130 | Any bytes that decode were encoded from exactly those fields. |
| `HandoffEvidence.EncodeInjective` | internal/factoryhandoff/client.go:120-130 | On short fields, two lists have the same encoding exactly when they are the same list. |
| `HandoffEvidence.LongFieldsCollide` | internal/factoryhandoff/client.go:124-126 | At 2^32 bytes the truncated length makes two different lists share an encoding. |
| `HandoffEvidence.PreimageSaysAll` | internal/factoryhandoff/client.go:57-71 | Pre-images coincide exactly for statements that say the same: never across the three participant and two deletion domains, never across tags, and within one exactly when the bindings are equal and the extra fields agree. |
| `HandoffEvidence.ReceiptSaysAll` | internal/factoryhandoff/client.go:113-130 | One receipt stands for one statement, unless the hash collides on the two byte strings named. |
| `HandoffEvidence.DrainPinsCounts` | internal/factoryhandoff/client.go:152-157 | Accepted records with the same drain receipt have the same participant, equal bindings and the same completed and canceled counts. |
| `HandoffEvidence.DecisionReceiptPins` | internal/factoryhandoff/client.go:387-407 | A decision receipt pins participant, outcome, binding, authorisation, digest, instant and committed version; an abort receipt is never a release receipt. |
| `HandoffEvidence.Decide` | internal/factoryhandoff/client.go:387-407 | decide refuses an invalid decision, and one whose times JSON cannot print, before asking; it returns a receipt exactly when an accepted record then confirms the decision (and, for a release, has drained); the receipt is the hash of the decision's pre-image. |
| `HandoffEvidence.DeletionReceiptPins` | internal/factoryhandoff/client.go:343-373 | A deletion hold receipt says whether the cloud was empty and never doubles as a cancellation receipt. |
| `HandoffEvidence.EvidenceDigestPins` | internal/factoryhandoff/client.go:214-269 | An accepted preflight digest pins scope, receipt, blockers and validity window. |
| `HandoffEvidence.Digest` | internal/factoryhandoff/client.go:120-130 | The loop writing sizes and fields into the running hash hashes the encoding of the field list. |
| `HandoffEvidence.PutUint32` | internal/factoryhandoff/client.go:124-126 | The four size bytes are the length in big-endian order, modulo 2^32. |
| `Rfc3339.FormatInjective` | internal/factoryhandoff/client.go:121 | UTC times print differently exactly when they are different instants. |
| `Rfc3339.ReadBack` | internal/factoryhandoff/client.go:121 | Reading a printed UTC time, fraction trimmed of trailing zeros, gives the time back. |
| `Decimal.ReadFormatInt` | internal/factoryhandoff/client.go:121 | Reading a printed integer gives it back, so decimal printing is injective. |
| `SignupLimiter.AdmitsAtMostTwiceLessOne` | internal/api/eval_tier.go:105-128 | On every run with a clock that does not go back, any half-open interval no longer than the window admits at most 2 * limit - 1 calls of one key: one fewer than twice the limit, because the call that opened a window is always admitted first. |
| `SignupLimiter.BoundIsReached` | internal/api/eval_tier.go:105-128 | That bound is met by some run for every positive limit and every window of two ticks or more. |
| `SignupLimiter.WindowAdmitsItsCount` | internal/api/eval_tier.go:120-127 | The window anchored at a stored start has admitted exactly its count capped at the limit. |
| `SignupLimiter.EvictionIsInvisible` | internal/api/eval_tier.go:109-119 | The limiter with lazy eviction answers every call of such a run as one that never evicts. |
| `SignupLimiter.MapStaysSmall` | internal/api/eval_tier.go:109-119 | After each call the map holds at most 257 keys, or no more than have a live window. |
| `SignupLimiter.Limiter.Allow` | internal/api/eval_tier.go:105-128 | allow, sweeping in any map order, makes the specified step. |
| `LifecyclePublisher.ResultAccepted` | internal/lifecyclehttp/publisher.go:264-313 | For every accepted command and every status and body, a result event exists exactly when the clock is non-zero and its year is one JSON can print; it is accepted on the event stream, decodes to the intended payload, keeps partition key, operation and correlation IDs and names the command as its cause. |
| `LifecyclePublisher.ReasonIsVisible` | internal/lifecyclehttp/publisher.go:315-324 | The failure reason is never blank, however the body reads and however it is cut. |
| `LifecyclePublisher.TruncateKeepsPrefix` | internal/lifecyclehttp/publisher.go:326-331 | Truncation keeps short text whole; longer text keeps the longest run of whole characters that fits, then U+FFFD for each left-over byte of a split character. |
| `LifecyclePublisher.GrantIsSentWhole` | internal/lifecyclehttp/publisher.go:217-238 | An accepted provisioning command sends its service grant whole, and exactly when it names a product or a grant digest. |
| `LifecyclePublisher.ResultValidates` | internal/channel/channel.go:429-735 | The result of a valid command passes its event's validator exactly when the clock is set. |
| `LifecyclePublisher.ResultEncodes` | internal/lifecyclehttp/publisher.go:299-302 | Encoding a result fails exactly when the year of its one time is outside 0 to 9999. |
| `LifecyclePublisher.Publisher.Publish` | internal/lifecyclehttp/publisher.go:81-135 | Nothing is sent for a refused envelope; a transport error, 429, 5xx or missing receipt is transient and projects nothing; a final answer projects exactly one result. |
| `Channel.PayloadRoundTrip` | internal/channel/channel.go:85-220 | Whatever a payload struct encodes to decodes strictly to the same payload. |
| `Channel.AcceptedReencodes` | internal/channel/channel.go:361-427 | Re-encoding the payload of an accepted message gives a message accepted with the same payload. |
| `Channel.ValidateServiceOptions` | internal/channel/channel.go:830-845 | The loop accepts exactly up to 64 well-formed, pairwise different codes. |
| `Rfc3339.ReadStrictBack` | internal/channel/channel.go:64 | A time of a four-digit year survives JSON, instant and zone offset. |
| `Rfc3339.ReadStrictRange` | internal/channel/channel.go:64 | Only times that have a JSON form are ever read from one. |
| `Prometheus.PassesEscape` | internal/api/prometheus_metrics.go:145-149 | The three replacement passes together escape each character on its own, as section 'Text format details' of the Prometheus text exposition format 0.0.4 asks. |
| `Prometheus.ReadEscaped` | internal/api/prometheus_metrics.go:145-149 | An escaped value followed by a quote reads back to the value. |
| `Prometheus.ReadLineBack` | internal/api/prometheus_metrics.go:125-143 | Reading a printed line gives back the name, the label map and the value, for arbitrary label values. |
| `Prometheus.WriteMetric` | internal/api/prometheus_metrics.go:125-143 | The text written is a function of the name, the label map and the value: whatever order the map is ranged over. |
| `Prometheus.WriteStatusMetrics` | internal/api/prometheus_metrics.go:106-115 | One line a status, in increasing order of status, whatever order the map is ranged over. |
| `Prometheus.StatusBlockReadsBack` | internal/api/prometheus_metrics.go:106-115 | The status block reads back as every count once, in order. |
| `Prometheus.SortedKeys` | internal/api/prometheus_metrics.go:128-132 | Collecting a map's keys in any order and sorting them gives the one sorted list of them. |
| `ViewerScope.AcceptsExactly` | internal/model/cloud_viewer_scope.go:20-41 | A scope is accepted exactly when it is all products with no list, or a non-empty selection, all well-formed and duplicate-free ignoring case. |
| `ViewerScope.Canonical` | internal/model/cloud_viewer_scope.go:20-41 | The output is strictly increasing, in lower case, and normalising it again changes nothing. |
| `ViewerScope.SameSelection` | internal/model/cloud_viewer_scope.go:20-41 | Two accepted selections agree exactly when their lowercased ID sets agree. |
| `ViewerScope.Normalized` | internal/model/cloud_viewer_scope.go:20-41 | The copy is lowercased, sorted and scanned in place; the caller's list is never written to. |
| `ViewerScope.SortedRepeats` | internal/model/cloud_viewer_scope.go:35-39 | On a sorted list the scan of neighbours finds exactly the duplicates. |
| `JsonDepth.DepthIsNesting` | internal/api/chipset_manifest.go:478-501 | The streaming check accepts a stream of well-formed values exactly when every value nests at most that deep. |
| `JsonDepth.CounterNeverNegative` | internal/api/chipset_manifest.go:478-501 | On every prefix of such a stream the counter is never negative. |
| `JsonDepth.StreamIsHill` | internal/api/chipset_manifest.go:478-501 | The counter ends where it began and peaks at exactly the greatest nesting. |
| `JsonDepth.ValidateJSONDepth` | internal/api/chipset_manifest.go:478-501 | The loop accepts exactly the streams that end cleanly and whose counter never exceeds the maximum. |
| `ChipsetManifest.ParsedIsSound` | internal/api/chipset_manifest.go:362-439 | In every parsed manifest chipset keys, board keys, releases and links are distinct in their scope, at most one release of a chipset is recommended, and each board reference names exactly one board. |
| `ChipsetManifest.ParsesToItself` | internal/api/chipset_manifest.go:362-439 | A manifest rebuilt from what was parsed, written out afresh as a document, passes the depth check and parses to the same chipsets. |
| `ChipsetManifest.ManifestNests` | internal/api/chipset_manifest.go:478-501 | A manifest without metadata nests at most eight deep, whatever it holds. |
| `ChipsetManifest.LinksNormalizeOnce` | internal/api/chipset_manifest.go:441-476 | Normalised links are accepted again and stay as they are. |
| `ChipsetManifest.BoardsNormalizeOnce` | internal/api/chipset_boards.go:15-66 | Normalised boards are accepted again and stay as they are. |
| `ChipsetManifest.JoinCollides` | internal/api/chipset_manifest.go:414 | Two NUL-joined keys coincide exactly when the parts do or one first part runs on past a NUL into the other's second. |
| `ChipsetManifest.LinkKeysExact` | internal/api/chipset_manifest.go:469-473 | For links the joined key loses nothing, because accepted addresses hold no NUL. |
| `ChipsetManifest.ReleaseKeysExact` | internal/api/chipset_manifest.go:414-418 | Release keys are distinct exactly when no two releases agree and no name runs on past a NUL into another's version. |
| `ChipsetManifest.DistinctReleasesRefused` | internal/api/chipset_manifest.go:414-418 | Two different releases, each accepted alone, that are refused together as duplicates. |
| `ChipsetManifest.NormalizeLinks` | internal/api/chipset_manifest.go:441-476 | The in-place loop accepts exactly the lists whose trimmed links are well-formed with distinct keys, and leaves them trimmed. |
| `ChipsetManifest.NormalizeLink` | internal/api/chipset_manifest.go:443-468 | One link is accepted exactly when its trimmed form is well-formed, and is left trimmed, languages included. |
| `ChipsetManifest.NormalizeBoards` | internal/api/chipset_boards.go:15-66 | The in-place loop accepts exactly the boards whose trimmed forms are well-formed with distinct keys and whose references resolve, and leaves them trimmed. |
| `ChipsetManifest.CheckReferences` | internal/api/chipset_boards.go:53-64 | A release's references are accepted exactly when they are at most 64, known and pairwise different. |
| `ChipsetManifest.NormalizeReleases` | internal/api/chipset_manifest.go:400-428 | The in-place loop trims releases and accepts them exactly when they are well-formed, their keys differ and at most one is recommended. |
| `ChipsetManifest.ParseChipsetManifest` | internal/api/chipset_manifest.go:362-439 | The nested loops compute the specified parse, with the version error apart from the others. |
| `ServiceCrl.Select` | cmd/server/service_registration_tls.go:57-75 | The loop selects the first lexicographic maximum by issue time and CRL number, absent lowest, among issuer-matching, verified, current lists (sections 5.1.2.4 and 5.2.3 of RFC 5280). |
| `ServiceCrl.Verify` | cmd/server/service_registration_tls.go:48-87 | The verdict is the selected list's on the leaf's serial number, and the missing chain, unloadable file, foreign and outdated lists are told apart. |
| `ServiceCrl.OrderFreeExactly` | cmd/server/service_registration_tls.go:64-75 | The verdict survives every reordering of the file exactly when the best candidates agree about the leaf. |
| `ServiceCrl.NoTiesOrderFree` | cmd/server/service_registration_tls.go:64-75 | It does when no two candidates tie on both keys. |
| `ServiceCrl.AnswerUnique` | cmd/server/service_registration_tls.go:48-87 | A loaded file has at most one answer. |
| `ServiceCrl.Load` | cmd/server/service_registration_tls.go:89-125 | The decode loop accepts exactly headerless PEM blocks of the one type, all parsed, with nothing after them, or one DER list. |

## Left out

- AtLeastOnce.RestartSkipsNothing: Receive calls do not overlap. Two concurrent calls release the lock between fetching
  and tracking, so batches could be tracked out of order; the program's one poller never does this.
- AtLeastOnce.DiskNeverGoesBack: not claimed after a failed load, where it is false (`FailedLoadForgetsTheRest`).
- AppCertificates.OneActiveCertificatePerUser: only for subjects of type `user`; other subjects take no lock.
- Channel.AcceptedReencodes: JSON is a tree, so duplicate member names, letter-case folding of member names and number
  syntax are not modelled, and metadata contents are carried as they are.
- ChipsetManifest.NormalizeBoards: the outer slices are trimmed in place; the slices nested inside a board, release or
  chipset are values copied out and back, so sharing between them is not modelled.
- LifecyclePublisher.Publisher.Publish: one call of the projection stands for the inbox service.
- Sequence numbers, ownership versions in arithmetic and map sizes are unbounded integers; digested numbers are 64-bit.
- Nil events, over-full batches, non-increasing clocks in the limiter, and events of partitions that restart numbering.
- Case folding beyond ASCII in strings.ToLower, and the saturation of time differences at 292 years.
- Board dimensions are exact rationals rather than floats.
- Which validation error is reported first, and error texts.
- The unique index on certificates is shown never to be met for users rather than enforced; SHA-256, X.509, PEM and
  url.Parse, and the regular expressions of the manifest, are functions given from outside.
- SQL text, CREATE TABLE statements, TLS, HTTP clients and handlers, file paths, logging, `updated_at` columns, metadata of
  links, stable chipset IDs.
- The inbox, outbox, handoff and deletion coordinators, billing evidence, readiness classification, roles and
  configuration checks: not part of this model.
