# Tapes: the parts that must not lose anything, proved

Tapes is a peer-to-peer recorder. Guests record and play takes, a host on the local network keeps the
audio, counts plays and countersigns what it was given, and any reader can check who signed what.
This project models the pieces of it whose faults would be silent, and proves what they are for.

- **Counting plays.** `Retention.dfy` is a step machine of the host's event log and its frozen
  baseline: one step for each piece of code that runs undisturbed, so a crash, a restart or an ingest
  can fall between any two disk effects of a sweep, and any write can fail. `RetentionSafety.dfy` keeps
  its invariant step by step, `RetentionTheorems.dfy` draws the results over whole runs, and the classes
  of `AggregateStore.dfy`, which do what `aggregates.ts` and `eventStore.ts` do, are each proved to be a
  run of that machine. `EventIngest.dfy` and `EventQueue.dfy` are the two ends of the wire, and
  `Delivery.dfy` and `DeliverySafety.dfy` put a guest, a lossy network and the host together.
- **Signed statements.** `Reader.dfy` says what a recording's statements prove, as conditions on a map
  from address to bytes, with no order in it. `RecordingReader.dfy` is the code's sequence of passes
  over lists, proved against it, and `ReaderTheorems.dfy` says what a reader may rely on.
  `StatementHost.dfy` is the host that takes statements and holds only checked ones, `Replication.dfy`
  the client that copies them to a second host, `ClaimIngest.dfy` and `IngestTheorems.dfy` the host that
  countersigns a claim. `Witnesses.dfy` builds recordings of a few one-byte statements on which the code
  does less than it seems to.
- **The codecs underneath.** `CanonicalJson.dfy` and `ShortestText.dfy` over `JsonText.dfy` (RFC 8785,
  sections 3.2.2 and 3.2.3), `Base64Url.dfy` (RFC 4648, sections 3.5 and 5), `SignedStatement.dfy`, and
  `KeyBackup.dfy` with its file form `KeyBackupFile.dfy`.
- **Smaller machines.** `SessionRecorder.dfy` over `SessionSpans.dfy` and `SessionDelivery.dfy`,
  `PinGuard.dfy` with `PersonRoster.dfy`, `BlobGc.dfy` and `RateLimiter.dfy`.

Check it with `dafny verify dfyconfig.toml`.

## Assumptions

- The host's clock never goes back, so a segment past the cutoff is not the one being appended to. That
  needs a retention age longer than any append takes; `RetentionSafety.Careful` states it.
- A failed `appendFile` wrote nothing, and a crash leaves whole lines.
- Completions are reals and times are whole milliseconds or reals, as the member says.
- sha-256 is injective, and Ed25519 verification is an uninterpreted predicate that only accepts what can
  be written. `Date.parse` is a function that may fail. No claim contains its own address.
- Numbers in JSON are doubles named by their bits, printed by any printer that its reader undoes.
- Work under one of the source's own queues or locks (`serialize`, `withClaimLock`, the roster's
  `queue`) is one step after another, and what a caller does in the microtasks after its write comes
  before the next write, which has disk calls to do.

## Where the code does less than it seems to

Each of these is two lemmas: one gives an input on which the property fails, the other the exact
condition under which it holds.

- A sweep whose baseline write failed leaves its fold in memory. A second sweep by the same process
  takes the early return at `aggregates.ts:263-267` and unlinks the segment, whose plays are then in
  memory only; if the writes of that sweep fail too, it ends with fewer plays on disk than it began with
  (`UncarefulSweepLoses`, from a state that `UncarefulSweepIsReachable` reaches). Every outcome of a sweep
  keeps the totals on disk exactly when no due segment that holds an event is folded in memory and absent
  from the baseline on disk (`SweepConservesIff`). One sweep for each launch, which is what
  `startSyncServer` does, never meets such a segment (`OneSweepPerLaunchIsSaved`).
- A launch whose totals fail to open sweeps without folding (`syncServer.ts:640-653`). A play that no
  baseline holds is lost that way (`RawSweepCanLose`). Wherever such a sweep stops, at the end of the
  listing or at an unlink that fails, it has kept the totals exactly when the baseline on disk names every
  due segment it came to that holds an event (`RawSweepConservesIff`).
- The dedupe key joins device and id with a NUL, and writes `unknown` for no device. So a NUL in either
  name can make two identities share a key (`DedupeKeyCanCollide`), and so can the device named `unknown`
  and no device. An event's key is its own exactly when its device is named, not `unknown`, and neither
  name carries a NUL (`DedupeKeyIsOwnIff`).
- `canonicalJson` promises to throw on what it would drop, but `map` passes over the holes of a sparse
  array: the array with one hole is written as the empty array (`HoleIsLost`). Parsing gives the value back
  exactly when no array in it has a hole (`CanonicalJson.RoundTrip`, and `StatementRoundTrip` and
  `HeaderRoundTrip` for a statement).
- A second host takes every statement of a clean recording except one over 64 KiB, and a revocation of a
  link whose bytes are the recording's own audio, which deduplication keeps labelled as audio
  (`ReplicationIsCompleteIff`; `Witnesses.ReplicationCanFail` is such a recording).
- The send order is optimal unless a claim names as its audio another of the statements
  (`RankOrderIsOptimalIff`, `ClaimOfAStatement`; `Witnesses.RankOrderCanLose` has two such claims).
- A further revocation can turn `receivedBeforeRevocation` from false to true
  (`Witnesses.RevocationCanEndDoubt`). It does, anywhere in the list, exactly when no
  revocation of the shown link so far has a time that parses, and the new one withdraws that link at a
  time that parses and is after the arrival (`RevocationEndsDoubtIff`).
- A closing session takes two snapshots of its claims, one for the record and one for the delivery, and
  goes on taking claims between them (`LateClaimRun`). A recording the record is then listed on stays clean
  exactly when it lists a claim of the first snapshot; otherwise the record fails it
  (`DeliveryKeepsCleanIff`).

## Model

| member | source | states |
|---|---|---|
| RetentionTheorems.Conservation | apps/electron-client/src/aggregates.ts:141-289 | after any careful run, crashes and failed writes included, baseline plus unfolded segments on disk hold exactly the plays and completion sums that ever reached the disk, for each recording, and the baseline file is never torn |
| RetentionTheorems.PlaysNeverDecrease | apps/electron-client/src/aggregates.ts:257-289 | lifetime plays of a recording never go down along a run |
| RetentionTheorems.RollupIsTheReplay | apps/electron-client/src/aggregates.ts:200-249 | with every written batch recorded, the rollup in memory is what a rebuild from disk derives, in the middle of a sweep too |
| RetentionTheorems.IndexIsTheLog | apps/electron-client/src/eventStore.ts:206-283 | the dedupe index is exactly the keys of the log, and those are pairwise distinct |
| RetentionTheorems.CountedAtMostOnce | apps/electron-client/src/eventStore.ts:235-283 | no device and id pair is counted twice in any run that does not resend a swept event |
| RetentionTheorems.OneSweepPerLaunchIsSaved | apps/electron-client/src/syncServer.ts:626-653 | a run with one sweep for each launch never begins a sweep with an unsaved fold |
| RetentionTheorems.RemoveConservesIff | apps/electron-client/src/eventStore.ts:336-348 | unlinking a segment keeps all totals if and only if the stored baseline names it or it holds no event |
| RetentionTheorems.SweepConservesIff | apps/electron-client/src/aggregates.ts:257-289 | every outcome of a sweep, whichever writes fail and wherever it stops, keeps all totals on disk exactly when no due segment with events is folded in memory and not on disk |
| RetentionTheorems.UncarefulSweepLoses | apps/electron-client/src/aggregates.ts:262-275 | wherever such a segment stands in the listing, the sweep whose writes fail ends with fewer plays on disk |
| RetentionTheorems.RawSweepConservesIff | apps/electron-client/src/syncServer.ts:640-653 | wherever the sweep of a launch without totals stops, it has kept them exactly when the baseline on disk names every due segment with events it came to, and at its end nothing due is left |
| RetentionTheorems.RawSweepCanLose | apps/electron-client/src/syncServer.ts:640-653 | one due play and no baseline: that sweep loses it |
| RetentionTheorems.UncarefulSweepIsReachable | apps/electron-client/src/aggregates.ts:262-275 | one play and one sweep whose baseline write fails reach such a state |
| RetentionSafety.StepInv | apps/electron-client/src/aggregates.ts:141-289 | every careful step of the host, crashes and failures included, keeps the invariant the results rest on |
| RetentionSafety.UnlinkKeepsTotals | apps/electron-client/src/aggregates.ts:200-213 | a folded segment can be unlinked without changing any total |
| RetentionSafety.FoldKeepsTotals | apps/electron-client/src/aggregates.ts:268-275 | folding a segment into the baseline and naming it there changes no total |
| PlayTotals.CountAllMeaning | apps/electron-client/src/aggregates.ts:75-83 | folding events gives the number of plays and the clamped completion sum, recording by recording |
| PlayTotals.AverageIsAFraction | apps/electron-client/src/aggregates.ts:94-103 | the average completion of any folded events is between 0 and 1, and times their number it is the sum of their completions |
| EventLog.JudgeFacts | apps/electron-client/src/eventStore.ts:235-262 | accepted events are new and pairwise distinct, and every event with an id is afterwards known |
| EventLog.JudgeAnswersAll | apps/electron-client/src/eventStore.ts:235-283 | each event with an id is taken as new, at the time of now, or answered as a duplicate |
| EventLog.JudgeTakesFirsts | apps/electron-client/src/eventStore.ts:235-262 | an event is taken exactly when its key is unseen and it is the first of the batch with that key |
| EventLog.DedupeKeyIsOwnIff | apps/electron-client/src/eventStore.ts:136-138 | no event of another device or id has an event's key exactly when its device is named, is not `unknown`, and neither name carries a NUL |
| EventLog.DedupeKeyIsInjective | apps/electron-client/src/eventStore.ts:136-138 | the one direction, for a pair of events |
| EventLog.DedupeKeyCanCollide | apps/electron-client/src/eventStore.ts:136-138 | two different device and id pairs with one key |
| EventLog.SegmentEndIs | apps/electron-client/src/eventStore.ts:303-318 | a segment ends right after the last instant that is filed in it |
| AggregateStore.EventStore.Open | apps/electron-client/src/eventStore.ts:206-222 | opening loads exactly the keys of the log |
| AggregateStore.EventStore.Append | apps/electron-client/src/eventStore.ts:235-283 | the verdict is the specified one; a failed write leaves log and index as they were |
| AggregateStore.EventStore.SweepRaw | apps/electron-client/src/eventStore.ts:303-352 | without a hook, the loop removes exactly the due segments and forgets exactly their keys; where an unlink fails, log and index are as the segments before it left them |
| AggregateStore.AggregateStore.DeriveRollup | apps/electron-client/src/aggregates.ts:200-213 | the loop derives the baseline plus every unfolded segment |
| AggregateStore.AggregateStore.Rebuild | apps/electron-client/src/aggregates.ts:225-238 | afterwards memory is what a fresh start would load |
| AggregateStore.AggregateStore.Open | apps/electron-client/src/aggregates.ts:216-223 | a launch is the machine's boot |
| AggregateStore.AggregateStore.Ingest | apps/electron-client/src/eventHttp.ts:352-368 | append then record is a run of the machine, and a failed append changes nothing |
| AggregateStore.AggregateStore.WriteBaseline | apps/electron-client/src/aggregates.ts:184-198 | the temp file and rename are steps of the machine, and the baseline is the new one or the old one |
| AggregateStore.AggregateStore.OnSegment | apps/electron-client/src/aggregates.ts:262-280 | folding or skipping a segment is a run of the machine |
| AggregateStore.AggregateStore.RemoveSegment | apps/electron-client/src/eventStore.ts:336-348 | unlinking and forgetting are steps of the machine |
| AggregateStore.AggregateStore.Sweep | apps/electron-client/src/aggregates.ts:257-289 | a whole sweep is one sweep of the machine, keeps the totals on disk and the invariant unless it began with an unsaved due segment, and reports in date order exactly the segments wholly past the cutoff: the removed ones are off the log, with that many events and nothing else, and off the names in the baseline, and the retained ones are on the log |
| EventIngest.SortFacts | apps/electron-client/src/eventHttp.ts:324-350 | each candidate that passes and names a known recording goes on, and each other one is rejected, once, in order, with its own index and id, finally exactly when malformed |
| EventIngest.Judge | apps/electron-client/src/eventHttp.ts:324-350 | the route's loop sorts a batch as specified |
| EventIngest.ValidIff | apps/electron-client/src/eventHttp.ts:178-222 | a candidate passes as an event exactly when it is a play with that id, URL and time, of the right shape, and a number that the completion is cut from |
| EventIngest.UrlShape | apps/electron-client/src/eventHttp.ts:166-172 | the URL test is a scheme and at least 16 characters of the base58 alphabet |
| EventIngest.ValidIsCountable | apps/electron-client/src/eventHttp.ts:178-222 | what passes has an id and a recording, and a completion the fold leaves as it is |
| EventQueue.AfterAnswerFacts | packages/core/app/eventQueue.ts:191-211 | an event leaves the queue if and only if it was sent and the answer settles it |
| EventQueue.KeptIff | packages/core/app/eventQueue.ts:191-211 | an event of the batch is kept exactly when the answer does not accept it, does not know it, and does not reject it for good by its id or, without one, by its place |
| EventQueue.AfterAnswerIff | packages/core/app/eventQueue.ts:303-318 | an event leaves the stored queue exactly when its id was sent and the answer did one of these |
| EventQueue.WithoutConcat | packages/core/app/eventQueue.ts:191-211 | what is kept stays in its order |
| EventQueue.CapFacts | packages/core/app/eventQueue.ts:174-182 | the cap drops the oldest, only those, and no more of them than it has to |
| EventQueue.Outbox.Enqueue | packages/core/app/eventQueue.ts:174-182 | the stored queue after a play, the oldest dropped past the cap |
| EventQueue.Outbox.ApplyIngestResponse | packages/core/app/eventQueue.ts:191-211 | the loop keeps what the answer does not settle |
| EventQueue.Outbox.FinishFlush | packages/core/app/eventQueue.ts:277-318 | the queue after each kind of answer, with plays that came meanwhile kept |
| DeliverySafety.EveryPlayIsAccountedFor | packages/core/app/eventQueue.ts:250-319 | through lost requests and answers, crashes and sweeps, every play is queued, held as measured, finally rejected, or dropped by the cap or a refusal |
| DeliverySafety.ProperIsValid | apps/electron-client/src/eventHttp.ts:178-222 | a play with an id passes the route as it was measured exactly when its URL has the shape and its time parses |
| DeliverySafety.ProperPlaysAreNotRejected | packages/core/app/eventQueue.ts:191-211 | in every run such a play is never finally rejected, however often a host does not know its recording |
| DeliverySafety.ProperPlaysAreKept | packages/core/app/eventQueue.ts:250-319 | without a refused batch and within the cap it is always queued or held |
| DeliverySafety.ServedPlaysAreTaken | apps/electron-client/src/eventHttp.ts:324-368 | a host that takes up a request holds or is writing each such play of a known recording, and its answer says so |
| DeliverySafety.AFlushDelivers | packages/core/app/eventQueue.ts:250-319 | from every reachable state with the host up and between appends, a flush that gets through leaves it held and off the queue |
| DeliverySafety.CountedPlaysAreCountedOnce | packages/core/app/eventQueue.ts:250-319 | end to end, a play the host counted is counted once, if it is not resent after its segment was swept |
| DeliverySafety.NextInv | packages/core/app/eventQueue.ts:174-319 | every move of guest, network and host keeps the joint invariant |
| RecordingReader.VerifyRecording | packages/provenance/lib/recordingProvenance.ts:283-419 | the passes return exactly the failures, or exactly the missing addresses, or what a clean listing shows |
| RecordingReader.CheckAll | packages/provenance/lib/recordingProvenance.ts:296-316 | the first pass files every passing statement under its kind and every failing one as a failure |
| RecordingReader.CheckSessions | packages/provenance/lib/recordingProvenance.ts:324-330 | session failures are the specified ones |
| RecordingReader.CheckLinks | packages/provenance/lib/recordingProvenance.ts:343-350 | link failures are the specified ones |
| RecordingReader.CheckRevocations | packages/provenance/lib/recordingProvenance.ts:354-361 | revocation failures are the specified ones |
| RecordingReader.AddUnlisted | packages/provenance/lib/recordingProvenance.ts:363-369 | what is missing was listed and not served, or is named by a passing claim and not listed |
| RecordingReader.UniqueRepresents | packages/provenance/lib/recordingProvenance.ts:296-296 | the map of a list keeps each address once with its last bytes |
| RecordingReader.EarliestItem | packages/provenance/lib/recordingProvenance.ts:383-385 | the item a stable sort by time puts first: no other is earlier, each one listed before it is later, unparseable times last |
| ReaderTheorems.OrderIndependence | packages/provenance/lib/recordingProvenance.ts:283-419 | any order of the same statements gives the same state, failures, missing addresses and arrival time |
| ReaderTheorems.StateIs | packages/provenance/lib/recordingProvenance.ts:371-418 | which state a listing is in, both ways and with no order: `verified` exactly when nothing failed or is missing and a receipt passes |
| ReaderTheorems.PassesIff | packages/provenance/lib/recordingProvenance.ts:201-257 | a statement passes alone exactly when its bytes hash to its address, are canonical and are signed by the key it names, and a claim is of this audio |
| ReaderTheorems.OwnProblemIs | packages/provenance/lib/recordingProvenance.ts:201-257 | which failure a statement is reported with that does not pass alone |
| ReaderTheorems.ProblemIs | packages/provenance/lib/recordingProvenance.ts:318-361 | which failure a statement is reported with that passes alone and is not bound to the others |
| ReaderTheorems.CleanIff | packages/provenance/lib/recordingProvenance.ts:318-376 | nothing failed or is missing exactly when all was served, all passes alone, and each statement is bound to the recording's audio or to a passing claim or link |
| ReaderTheorems.EarliestReceipt | packages/provenance/lib/recordingProvenance.ts:383-412 | the time shown is that of a passing receipt for a passing claim, and no passing receipt is earlier |
| ReaderTheorems.ShownIs | packages/provenance/lib/recordingProvenance.ts:378-418 | what is shown is what one passing claim says, the claim of the receipt shown or else the first one: its own fields, the person of the link it names exactly when that passes, field by field and a vouch as a vouch, and the first passing session record |
| ReaderTheorems.RevocationFailsIff | packages/provenance/lib/recordingProvenance.ts:354-361 | in any listing a revocation fails exactly when its signer, the person a passing link names or the host that vouched, may not withdraw that link for its device, and a clean recording stays clean exactly when its signer may |
| ReaderTheorems.RevocationAnnotates | packages/provenance/lib/recordingProvenance.ts:387-402 | a permitted revocation, anywhere in the list of a clean recording, keeps it clean and changes nothing that is shown but the revocation |
| ReaderTheorems.ShownRevocationIsFirst | packages/provenance/lib/recordingProvenance.ts:425-433 | a revocation is shown exactly when one withdraws the shown link, it is the earliest, and the flag says whether the arrival is before it |
| ReaderTheorems.RevocationOnlyAddsDoubt | packages/provenance/lib/recordingProvenance.ts:435-452 | a further revocation, anywhere in the list, cannot move the end of trust later and can only turn `receivedBeforeRevocation` false, once the shown one has a time that parses |
| ReaderTheorems.RevocationEndsDoubtIff | packages/provenance/lib/recordingProvenance.ts:435-452 | exactly when a further revocation, anywhere in the list, turns `receivedBeforeRevocation` from false to true |
| Witnesses.RevocationCanEndDoubt | packages/provenance/lib/recordingProvenance.ts:435-452 | a clean recording and a permitted revocation that does |
| StatementHost.AcceptsIsMonotone | apps/electron-client/src/statementUpload.ts:109-237 | a host that holds more accepts no less |
| StatementHost.AcceptsIff | apps/electron-client/src/statementUpload.ts:109-237 | the host takes a statement exactly when it is small enough, canonical, signed by the key it names, and bound to what the host holds, a link by the claim sent with it |
| StatementHost.RefusalIs | apps/electron-client/src/statementUpload.ts:109-237 | which refusal a statement gets that is no known type, is not signed, or is bound to nothing the host holds |
| StatementHost.UploadAllKeepsChecked | apps/electron-client/src/statementUpload.ts:256-276 | after any uploads, everything labelled a statement is canonical, signed, and bound to something held |
| StatementHost.UploadAllKeeps | apps/electron-client/src/blobStore.ts:406-425 | uploads only add objects, each under the hash of its bytes |
| StatementHost.CameLater | apps/electron-client/src/statementUpload.ts:109-148 | what is held at the end and not after some uploads came from a later one |
| Replication.Replicate | packages/core/app/blobClient.ts:643-655 | the copying loop leaves the store and the answers of uploading in send order |
| Replication.SortIsRanked | packages/core/app/blobClient.ts:724-749 | the send order is by rank |
| Replication.SortIsStable | packages/core/app/blobClient.ts:724-729 | the sort loses and adds nothing and keeps the order within a rank |
| Replication.ClaimNaming | packages/core/app/blobClient.ts:718-722 | the claim that goes with a link is the first in the list that names it, and there is none exactly when none does |
| Replication.RankOrderIsOptimalIff | packages/core/app/blobClient.ts:741-749 | no other order, with any repeats, stores more than rank order, exactly when no claim it got refused would be taken at the end |
| Replication.RankOrderIsOptimal | packages/core/app/blobClient.ts:741-749 | rank order is optimal when no claim names another of the statements as its audio |
| Replication.ClaimOfAStatement | apps/electron-client/src/statementUpload.ts:150-161 | where one does, sending that statement first stores more |
| Witnesses.RankOrderCanLose | packages/core/app/blobClient.ts:741-749 | a store and two statements in rank order of which the other order stores one more |
| Replication.ForClaimIsNamed | packages/core/app/blobClient.ts:718-729 | the claim that goes with a link of a clean recording is a passing claim that names it, for its device |
| Replication.NextPasses | apps/electron-client/src/statementUpload.ts:109-237 | with what it needs copied, each statement the reader passed also passes the second host's checks |
| Replication.ReplicationIsCompleteIff | packages/core/app/blobClient.ts:617-749 | a host with only the audio takes every known statement of a clean recording in send order exactly when each fits and none revokes the audio's own bytes |
| Witnesses.ReplicationCanFail | packages/core/app/blobClient.ts:617-749 | a clean recording that a second host with its audio does not take whole |
| ClaimIngest.IngestDesk.VerifyClaimOnIngest | apps/electron-client/src/claimIngest.ts:83-161 | store, index and answer after an upload, for every way it can go |
| IngestTheorems.VerifiedIff | apps/electron-client/src/claimIngest.ts:83-117 | ingest says `verified` exactly when the claim is signed by its device and is about the bytes that came; otherwise nothing changes |
| IngestTheorems.ReceiptIsOwn | apps/electron-client/src/claimIngest.ts:223-241 | the receipt in an answer is for the claim and verifies under the key of now, also after a key reset |
| IngestTheorems.KeptIff | apps/electron-client/src/claimIngest.ts:267-287 | an address is kept exactly when it is that of a statement whose write succeeded |
| ClaimIngest.IngestDesk.StoreStatements | apps/electron-client/src/claimIngest.ts:267-287 | the loop keeps each statement whose write succeeds, under its address |
| ClaimIngest.CertificateFor | apps/electron-client/src/claimIngest.ts:168-192 | the link that was sent, exactly when it is a certificate or vouch that verifies, at the address the claim names and for its device |
| IngestTheorems.LinkIsKeptIff | apps/electron-client/src/claimIngest.ts:123-192 | with no failing write, the named link is kept exactly when it was sent like that, or the claim names what is kept beside it |
| IngestTheorems.ReaderAgrees | apps/electron-client/src/claimIngest.ts:123-161 | after a `verified` ingest with all writes done, the reader finds nothing wrong and answers `verified`, or `unavailable` exactly when the claim names a link and none that verifies for its device was sent |
| IngestTheorems.SameReceipt | apps/electron-client/src/claimIngest.ts:195-221 | of two uploads of one claim in any run under one key, the second gets the receipt of the first |
| IngestTheorems.ReceiptIsOfFirstArrival | apps/electron-client/src/claimIngest.ts:195-241 | a claim's receipt carries the time of its first upload |
| IngestTheorems.SaneStays | apps/electron-client/src/claimIngest.ts:244-260 | every ingest keeps the index pointing at stored receipts that verify |
| CanonicalJson.AssertWellFormed | packages/provenance/lib/canonicalJson.ts:62-77 | the loop accepts exactly the strings in which every surrogate is paired |
| CanonicalJson.RoundTrip | packages/provenance/lib/canonicalJson.ts:10-51 | parsing canonical text gives the value back, without undefined members and minus zeros, exactly when no array in it has a hole |
| CanonicalJson.HoleIsLost | packages/provenance/lib/canonicalJson.ts:27-29 | an array with a hole is accepted, and written as another array |
| CanonicalJson.ThrowsIff | packages/provenance/lib/canonicalJson.ts:10-51 | it throws exactly when the value holds, at any depth, something JSON would drop or change, or text with a lone surrogate |
| CanonicalJson.SameTextSameMeaning | packages/provenance/lib/canonicalJson.ts:10-51 | two values without holes have one text exactly when they are equal up to member order, undefined members and the sign of zero |
| CanonicalJson.Recanonicalize | packages/provenance/lib/canonicalJson.ts:10-51 | parsed canonical text is written back the same |
| CanonicalJson.CanonicalTexts | packages/provenance/lib/canonicalJson.ts:10-51 | a text is the text of what it parses to exactly when `canonicalJson` writes it for some value without holes |
| ShortestText.CanonicalIsShortest | packages/provenance/lib/canonicalJson.ts:10-51 | of all texts that mean the same and spell their numbers as they are written, none is shorter, so there is no white space in it and nothing spelled at length |
| ShortestText.CanonicalIsAmongThem | packages/provenance/lib/canonicalJson.ts:10-51 | the canonical text is one of those |
| CanonicalJson.NormDecidesMeaning | packages/provenance/lib/canonicalJson.ts:29-40 | the normal form is equal on two values exactly when they mean the same |
| CanonicalJson.ParsePrint | packages/provenance/lib/canonicalJson.ts:10-51 | whatever follows it, printed text is read back as its value and no further |
| CanonicalJson.SortedKeysAscend | packages/provenance/lib/canonicalJson.ts:32-34 | members come in strictly ascending code unit order |
| CanonicalJson.BeforeIff | packages/provenance/lib/canonicalJson.ts:32-34 | the first code unit that differs decides the order of keys, and a key comes before its extensions |
| JsonText.ReadStringEscaped | packages/provenance/lib/canonicalJson.ts:22-25 | a quoted string is read back as it was |
| JsonText.EscapeIsShortest | packages/provenance/lib/canonicalJson.ts:22-25 | no other spelling of a character that JSON reads is shorter, and hexadecimal digits are lower case |
| JsonText.JsonParse | packages/provenance/lib/recordingClaim.ts:76-95 | what is parsed never has one key twice, nor a hole |
| SignedStatement.StatementRoundTrip | packages/provenance/lib/recordingClaim.ts:76-95 | a stored statement is read back and written again the same exactly when it has a payload without holes |
| SignedStatement.StatementTextIs | packages/provenance/lib/signing.ts:114-122 | a statement is stored as the object of its payload and its signature, in this order |
| SignedStatement.CanonicalStatements | packages/provenance/lib/recordingProvenance.ts:259-270 | a text passes the canonical check, which drops all of a wrapper but payload and signature, exactly when a statement with a payload without holes is stored as it |
| SignedStatement.HeaderRoundTrip | packages/provenance/lib/recordingClaim.ts:54-68 | the header text of a statement decodes to that statement exactly when it has a payload without holes |
| SignedStatement.PrintIsWellFormed | packages/provenance/lib/canonicalJson.ts:22-40 | canonical text has no lone surrogate, so UTF-8 carries it |
| Base64Url.DecodeEncode | packages/provenance/lib/encoding.ts:10-53 | decoding undoes encoding on every byte string |
| Base64Url.EncodeDecode | packages/provenance/lib/encoding.ts:10-53 | encoding undoes decoding on every text that is accepted |
| Base64Url.ToBase64Url | packages/provenance/lib/encoding.ts:10-21 | the loops write three bytes at a time, fewer at the end |
| Base64Url.EncodeEncodes | packages/provenance/lib/encoding.ts:10-21 | what is written spells the bytes as a number, followed by zero bits |
| Base64Url.FromBase64Url | packages/provenance/lib/encoding.ts:27-53 | the loop over a 24-bit buffer returns the one byte string the text spells, if any |
| Base64Url.MaskKeepsTheRest | packages/provenance/lib/encoding.ts:42-47 | the mask never cuts bits that are still to be written |
| Base64Url.EncodesIsOneToOne | packages/provenance/lib/encoding.ts:23-26 | each byte string has one spelling and each spelling one byte string |
| Base64Url.DigitIs | packages/provenance/lib/encoding.ts:6-7 | the alphabet is that of the standard |
| KeyBackup.EncodeBackup | packages/provenance/lib/personKeyBackup.ts:166-172 | the filled buffer is the header and the ciphertext |
| KeyBackup.DecodeBackup | packages/provenance/lib/personKeyBackup.ts:175-248 | on any bytes, the cursor returns the record they encode or the reason there is none |
| KeyBackup.AcceptsIff | packages/provenance/lib/personKeyBackup.ts:175-248 | bytes encode some well-formed record exactly when they pass the reader's tests |
| KeyBackup.EncodeIsOneToOne | packages/provenance/lib/personKeyBackup.ts:140-172 | two well-formed records with the same bytes are the same |
| KeyBackup.PassphraseLayout | packages/provenance/lib/personKeyBackup.ts:140-172 | where each field of a passphrase record is, its memory setting in big-endian bytes |
| KeyBackup.PasskeyLayout | packages/provenance/lib/personKeyBackup.ts:140-172 | where each field of a passkey record is, its length in big-endian bytes |
| KeyBackup.WhyRefused | packages/provenance/lib/personKeyBackup.ts:175-248 | which reason bytes that are no record are refused with |
| KeyBackup.WhyTextIsRefused | packages/provenance/lib/personKeyBackup.ts:313-322 | which reason a text that is no record is refused with |
| KeyBackup.DecodeIs | packages/provenance/lib/personKeyBackup.ts:166-248 | every well-formed record of either unlock method survives encode and decode |
| KeyBackup.ReadCompact | packages/provenance/lib/personKeyBackup.ts:313-322 | the compact reader with the running decoders meets its specification |
| KeyBackup.CompactRoundTrip | packages/provenance/lib/personKeyBackup.ts:251-253 | a text reads as a record exactly when it is that record's text |
| KeyBackup.TextRoundTrip | packages/provenance/lib/personKeyBackup.ts:295-311 | the text form is read back through any white space around it |
| KeyBackupFile.FileRoundTrip | packages/provenance/lib/personKeyBackup.ts:270-311 | the JSON file that is written for a record is read back as that record through any white space around it |
| KeyBackupFile.FileShows | packages/provenance/lib/personKeyBackup.ts:270-293 | the members that are not read say what they are named for, the public key the record's own |
| KeyBackupFile.ParseIndented | packages/provenance/lib/personKeyBackup.ts:278-292 | an object written over indented lines parses to its members |
| SessionSpans.SpansArePresences | apps/electron-client/src/sessionRecorder.ts:108-134 | each continuous presence of a connection yields exactly one span, from the list it begins with to the list that ends it |
| SessionSpans.Joined | apps/electron-client/src/sessionRecorder.ts:119-126 | a span begins when its connection did, or with the session if that is later |
| SessionSpans.ListedSpansAreStays | apps/electron-client/src/sessionRecorder.ts:141-157 | what a record lists under a key is when each of its stays began and ended, in order |
| SessionSpans.LastNameIsKept | apps/electron-client/src/sessionRecorder.ts:116-118 | a device's name is the last one it gave, if it gave one |
| SessionSpans.OpenSpansAreTheLastList | apps/electron-client/src/sessionRecorder.ts:108-134 | the spans without an end are exactly those of the proven connections of the last list, one each |
| SessionSpans.RecordedSpansAreWithin | apps/electron-client/src/sessionRecorder.ts:136-158 | under a nondecreasing clock, openedAt <= joinedAt <= leftAt <= closedAt for every listed span |
| SessionRecorder.Tracked.Track | apps/electron-client/src/sessionRecorder.ts:108-134 | over shared span objects, `devices` and `live` go on telling the history of the lists |
| SessionRecorder.Tracked.Link | apps/electron-client/src/sessionRecorder.ts:119-126 | the one new object is in both collections, and nothing else changes |
| SessionRecorder.Tracked.EndOne | apps/electron-client/src/sessionRecorder.ts:128-133 | ending a span through `live` ends it in its device's list, and no other |
| SessionRecorder.Tracked.MakeRecord | apps/electron-client/src/sessionRecorder.ts:141-157 | the record lists, under each key, the spans begun under it |
| SessionRecorder.Recorder.Open | apps/electron-client/src/sessionRecorder.ts:217-233 | refused exactly while a session is open or that one is still closing |
| SessionRecorder.Recorder.ConnectionsChanged | apps/electron-client/src/sessionRecorder.ts:239-243 | a list of connections enters the open session's history, and no claim is lost |
| SessionRecorder.Recorder.ClaimVerified | apps/electron-client/src/sessionRecorder.ts:245-251 | a claim enters only the session it names, open or closing, and no record already made |
| SessionRecorder.Recorder.Close | apps/electron-client/src/sessionRecorder.ts:167-214 | the closed session keeps its devices, spans and claims and goes on taking claims |
| SessionRecorder.Recorder.Sign | apps/electron-client/src/sessionRecorder.ts:136-165 | the record made at the end of the grace period has the devices, names and spans of the session's lists and claims of that session only, and the session stays closing |
| SessionRecorder.Recorder.Deliver | apps/electron-client/src/sessionRecorder.ts:191-195 | what is delivered is that record and every claim of the session until now, which may be more than it lists |
| SessionRecorder.RecordsEveryDevice | apps/electron-client/src/sessionRecorder.ts:108-157 | a record lists a device exactly when it proved its key during the session, and every span is under a listed device |
| SessionRecorder.RecordIs | apps/electron-client/src/sessionRecorder.ts:136-158 | both hold of each device of a record |
| SessionRecorder.LateClaimRun | apps/electron-client/src/sessionRecorder.ts:185-210 | a run in which a claim is delivered that its record does not list |
| SessionRecorder.SignedSpansAreWithin | apps/electron-client/src/sessionRecorder.ts:136-158 | every span of a signed record is within its session |
| SessionDelivery.ListSessionRecord | apps/electron-client/src/sessionDelivery.ts:19-60 | each covered recording lists the record once, at its end if it did not list it, every other is as it was, and the covered ones are returned |
| SessionDelivery.ExtendedIs | apps/electron-client/src/sessionDelivery.ts:47-56 | a list with one of the claims holds the record afterwards, at its end unless it had it; a list with none stays as it is |
| SessionDelivery.RecordKeepsCleanIff | packages/provenance/lib/recordingProvenance.ts:463-477 | a record keeps a clean recording clean exactly when it lists one of its claims of that session |
| SessionDelivery.DeliveryKeepsClean | apps/electron-client/src/sessionDelivery.ts:47-56 | each clean recording that lists a claim of the record stays clean and shows a session |
| SessionDelivery.DeliveryKeepsCleanIff | apps/electron-client/src/sessionRecorder.ts:190-195 | listing a record on the recordings of all claims until the delivery keeps a clean one clean exactly when it lists a claim the record lists; otherwise the record fails |
| SessionDelivery.LateClaimFails | apps/electron-client/src/sessionRecorder.ts:190-195 | a recording whose claims of the session all came after the record was made fails with it |
| PinGuard.CountIsReservations | apps/electron-client/src/hostVouching.ts:193-200 | in every interleaving and across restarts, the saved count is the reservations since it was cleared, five at most |
| PinGuard.StepInv | apps/electron-client/src/hostVouching.ts:193-234 | every step, failed writes and restarts included, keeps that |
| PinGuard.GuessesAreBounded | apps/electron-client/src/hostVouching.ts:193-220 | over a whole run at most five comparisons start for the first count and for each clearing |
| PinGuard.StartsBetweenClears | apps/electron-client/src/hostVouching.ts:193-220 | from anywhere in a run until the count is next cleared, no more comparisons start than tries are left, five at most |
| PinGuard.WrongGuessesAreFew | apps/electron-client/src/hostVouching.ts:193-234 | without a right guess, a new PIN or an unlock, no more comparisons start than tries are left, whatever else happens |
| PinGuard.CountsAreOfTheLog | apps/electron-client/src/hostVouching.ts:193-220 | the counts these results speak of are those of the log |
| PinGuard.BoundIsReached | apps/electron-client/src/hostVouching.ts:193-220 | that many can start from every state in which the person has a PIN, five right after a clearing |
| PersonRoster.Store.Replace | apps/electron-client/src/personRoster.ts:106-113 | one entry is replaced, the others stay, and a failed write changes nothing |
| PersonRoster.Store.ReserveGuess | apps/electron-client/src/hostVouching.ts:193-204 | the write is the machine's reservation, refused exactly without a PIN or at the limit, and adds one to the count |
| PersonRoster.Store.SavePin | apps/electron-client/src/hostVouching.ts:223-234 | the write is the machine's: the PIN is the new one, or none, and the count is clear |
| PersonRoster.Store.UnlockPin | apps/electron-client/src/hostVouching.ts:586-597 | the write is the machine's: the count is clear and nothing else changes; it reports whether the person exists |
| PersonRoster.Store.Put | apps/electron-client/src/personRoster.ts:120-122 | the write is the machine's first join |
| PersonRoster.Store.Join | apps/electron-client/src/hostVouching.ts:340-356 | a join is the machine's later join for a known person, who keeps the PIN unless the join brings one, and its first join for another |
| PersonRoster.Store.ClearFailures | apps/electron-client/src/hostVouching.ts:205-210 | the write after a right PIN is the machine's answer to any guess of the person, and clears the count |
| PersonRoster.FindIs | apps/electron-client/src/personRoster.ts:117-119 | with one entry for each person, the search finds that entry |
| BlobGc.Store.Collect | apps/electron-client/src/blobGc.ts:136-284 | the store is unchanged exactly when the sweep aborts, for the first reason in order, and otherwise loses exactly the orphans, which are what it reports, beside how many hashes are live, how many objects were too young and how many have other links |
| BlobGc.Store.MarkRoots | apps/electron-client/src/blobGc.ts:172-201 | the roots and recordings found are the reachable ones, and it fails exactly when a seeded root does not resolve |
| BlobGc.Store.MarkLive | apps/electron-client/src/blobGc.ts:209-232 | the live hashes are those a reachable recording names, and it fails exactly when one does not resolve |
| BlobGc.Store.Sweep | apps/electron-client/src/blobGc.ts:250-273 | exactly the orphans go, with the counts that are reported |
| BlobGc.Orphans | apps/electron-client/src/blobGc.ts:250-273 | the orphans of a listing: unreachable, old enough and not an owned statement, each once |
| BlobGc.SecondSweepRemovesNothing | apps/electron-client/src/blobGc.ts:136-284 | a second run on the same documents at the same time removes nothing |
| RateLimiter.WindowBound | apps/electron-client/src/eventHttp.ts:231-253 | in any window of T seconds one socket gets at most burst + T * refill requests through, whatever other sockets do |
| RateLimiter.PassesIff | apps/electron-client/src/eventHttp.ts:238-252 | a request is let through exactly when that keeps its socket within a burst and the refill in every window that ends with it |
| RateLimiter.PatientIsNeverRefused | apps/electron-client/src/eventHttp.ts:231-253 | a new socket that waits for a token between its requests is never refused, whatever others do |
| RateLimiter.BucketsFit | apps/electron-client/src/eventHttp.ts:241-251 | tokens stay between nothing and a burst |
| RateLimiter.Limiter.Take | apps/electron-client/src/eventHttp.ts:238-252 | one request is one step of that run, and keeps the buckets in bounds |

## Left out

- Floating point: completions, tokens and bucket times are reals. A NaN completion in a hand-edited log
  line, which the log reader drops, cannot be written down here.
- Torn log lines: a crash keeps whole lines, so the line glued to the next batch's first record is not
  modelled, nor is a segment file whose name is no date or a segment that cannot be read during a sweep.
- A retention age so short that a sweep can reach the segment being appended to: `Careful` excludes it.
- The WebCrypto, Argon2id, HKDF and AES-GCM calls, certificates, passkey ceremonies: uninterpreted or absent.
- The shape checks of statement payloads: a payload is given as the record it has the shape of, with a
  `rest` that stands for any further members, as `Misshapen` with a known type, or as `Other`. A statement is taken
  as what its canonical text means, which `CanonicalJson.SameTextSameMeaning` justifies.
- Statements whose bytes parse as JSON but not as a signed wrapper: the client's `readPayload` still reads
  their type; here they rank as unknown. Hosts refuse them in any order.
- KeyBackupFile.FileRoundTrip: the ISO form of the time and the help sentence of the file are parameters.
- UTF-8 is a parameter with its round trip, and the grammar of numbers is a parameter with its own.
- ShortestText.CanonicalIsShortest: that no number has a shorter spelling is the printer's business, which is a
  parameter; the texts compared spell each number as the printer does.
- RecordingReader.CheckAll: the order of the failure list is not stated, only its contents, each once.
- ClaimIngest.IngestDesk.VerifyClaimOnIngest: a claim that verifies and cannot be written does not exist
  under the stated assumption on verification, and is answered as malformed here.
- SessionRecorder.Tracked.MakeRecord: the record's lists are in the order they were made; the sorting of
  devices, spans and claims and the ISO form of times are left out. Timers, signing and writing the record
  to the store are left out too: `Sign`, `Deliver` and `Forget` come whenever those end or fail.
- PersonRoster.Store.Join: its two writes come without another between; the machine's two actions allow one.
- CanonicalJson.SameTextSameMeaning: values with holes are not compared; `HoleIsLost` shows that two of them
  with one text can differ.
- BlobGc.Store.Collect: which of several unresolved seeds or recordings it names is not stated. A document
  that resolves to nothing is one with no fields; timeouts are a document that does not resolve.
  Races with an upload of the same hash are not claimed.
- Vouch requests, the pending list, revoking a vouch and passkey records of the roster: small or one-branch.
- HTTP parsing, status codes other than the ones the queue acts on, backoff, range requests, IPC and UI.
- The garbage collector's grace period as protection for an old object ingested again: deduplication only
  adds a reference, so nothing is claimed for it.
