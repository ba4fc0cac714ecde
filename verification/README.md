# Attendance punch custody: a Dafny model

ADD takes an attendance punch from a device batch, through identity evidence and holds, to a content-checked row in
Oracle. This project models the parts of that path where a mistake loses a punch, sends it twice with different
content, or credits it to the wrong person, and proves what those parts keep over every input and every run.

| files | part of the system |
|---|---|
| `DeliveryRows`, `DeliveryProtocol`, `DeliveryTheorems`, `DeliveryHandover`, `DeliveryRaces`, `DeliveryOutcomes` | direct Oracle delivery: approval, queue, claim, split, send intent, POST, lost replies, content check, automatic takeover, all interleaved |
| `IdentityHistory`, `IdentityContinuity`, `IdentityCoverage` | identity intervals built from roster snapshots, what each interval proves, and that none is missing |
| `EvidenceIndex` | those intervals read back for many punches through chunks and recursively split windows |
| `PunchTimeIdentity`, `DirectApproval` | which CNIC the evidence names, what an administrator may send, what a saved approval accepted |
| `PunchVerdicts` | the three together: from a log of snapshots to the verdict on each punch |
| `BatchContent`, `BatchRows`, `BatchSettlement`, `BatchTheorems`, `BatchRuns`, `BatchLegacy`, `BatchOutcomes` | batch receipts: exact retries, capture-time replays, conflicts, quarantine, rebuilt digests |
| `BacklogMembers`, `BacklogRelease`, `BacklogTheorems`, `BacklogOutcomes` | paced zone releases with frozen members, a cursor, a cap and an in-flight limit |
| `ForceRelease`, `ForceTheorems`, `ForceOutcomes` | force-release runs: job, device and item states under pause, resume, stop, busy and offline devices |
| `ManualGuard` | the before-flush hook and the database triggers that keep held punches held |
| `Recovery`, `RecoveryTheorems`, `RecoveryOutcomes` | recovery and timestamp-correction jobs with savepoints and operator control |
| `ShardOrder`, `ShardBalance`, `ShardPlanner`, `ShardPlans` | the longest-processing-time-first CI shard planner |
| `CaptureLatency` | the percentile bound of the capture latency histogram |

`dafny verify dfyconfig.toml` checks the whole project.

How the system is represented:

- Each database transaction, and each savepoint, is one atomic step. An object whose methods change rows is a class;
  every method's postcondition equates the new state with a specification function of the old one, and the theorems
  are about those functions.
- What the code reads from elsewhere (clocks, locks held by others, roster state, proofs decided by other modules,
  answers from Oracle or a device) is a parameter of the step, so every theorem holds for all such answers.
- SHA-256 digests are injective: a digest is a datatype wrapping its content. Encrypted evidence is the plain value.
  CNICs appear as their keyed lookup hashes. Times are integers.
- An approval is bound to the CNIC the punch carried when it was given, and validates only while the punch still carries
  it and the frozen payload names it (if there was one). Every other fact the check reads is the environment's choice.
- Between modelled transactions the rest of ADD may do anything to a punch's rows except what no writer does: put a row
  in flight, reuse an attempt number, edit a decision or a send intent, write the forced check's mark, release a held
  punch without a CNIC, or release one whose row is in flight (`service.py:4050`). Re-resolving a punch that needs no
  approval is allowed at any time, because `enrich_undelivered_attendance` does not look at the row's delivery.
- Batch runs start from an empty store and mix two settlements in any order: this version's, and the one before content
  digests, whose receipts carry no content mark (`SettleUnmarked`), so every theorem covers stores it left behind.
- Oracle stores the first payload it receives for an event UID and never replaces it; a POST, once sent, may be stored
  at any later moment or never.

What the model shows about the code that its documentation does not say:

- **Claim and split are separate transactions.** A punch once released, held again, approved, and then released with
  the same CNIC is still owned by its approval. If that approval validates at the claim and stops before `split_claims`,
  its own frozen payload goes to ordinary delivery with no saved send intent, so a later approval can replace it and
  Oracle can be sent two direct payloads (`TwoDirectPayloadsAfterLaneSwitch`). This happens inside one delivery lock.
  The guarantee holds exactly for steps that are not such a lane switch (`IntentAheadExactly`,
  `OneDirectPayloadUnlessSwitched`). Even after one, while the claim still owns its row, the payload names the CNIC the
  punch carried when it was claimed (`OwnedHandoverSendsPunchCnic`).
- **The handover compares the punch's CNIC, not the claim's.** One worker process claims, splits and delivers under one
  lock, and in all runs of one process the CNIC handed over is the posted one (`SerialHandoverSendsPostedCnic`). The
  lock is local to the process: with a second process, a claim left waiting while its row is claimed again can be handed
  over with another CNIC (`StaleClaimSendsAnotherCnic`); it is safe exactly when the claim still carries the punch's
  current CNIC (`HandoverIsSafeExactly`).
- **A claim takes its attempt number at the split.** The number fences every claim already split when the row is claimed
  again (`NewClaimFencesOlder`). A claim still waiting is not fenced (`WaitingClaimIsNotFenced`): it joins the newer
  attempt, and what it may then send is the current approval's payload (`SplitJoinsCurrentClaim`). Under the delivery
  lock no such claim exists (`SerialSplitsNewestClaim`).
- **The quarantine annotation overwrites a device field of the same name**: evidence gives an object row back exactly
  when the row had no `__batch_context` key of its own (`EvidenceKeepsTheRow`).
- **The hook's memory of old values never decides anything**: the flag a flush leaves is whether the written row needs
  approval (`FlagIsWhetherApprovalIsNeeded`), so the hook alone would trust a writer that cleared the flag
  (`HookAloneTrustsClearedFlag`). No present writer does that, and the PostgreSQL triggers would not let it through:
  over any writers a held punch is delivered only with an approval or a release the database itself verified
  (`HeldPunchNeedsApprovalOrProof`).

## Model

| member | source | states |
|---|---|---|
| DeliveryRows.PunchStore.Queue | apps/add_backend/zk_add/attendance_direct_ords.py:1196-1275 | One READY item under the row locks: skipped when the punch's CNIC or payload is no longer the approved one or an earlier approval may not be replaced, sent to review, left for the claim in flight, or saved as the punch's newest approval; the new rows are `Queued` of the old ones |
| DeliveryRows.PunchStore.Reserve | apps/add_backend/zk_add/attendance_force_delivery.py:98-119 | A send intent is saved only for the claim that owns the row and the current approval, and a second one only after a content check found Oracle empty |
| DeliveryRows.PunchStore.SplitClaim | apps/add_backend/zk_add/attendance_force_delivery.py:44-95 | The lane is decided again from the rows as they are now: ordinary delivery after a takeover, the forced lane for an unchanged payload, otherwise the punch is held |
| DeliveryRows.PunchStore.Persist | apps/add_backend/zk_add/attendance_force_delivery.py:183-304 | A claim's result changes rows only while that claim owns the row and the approval and payload are still current |
| DeliveryProtocol.StepKeeps | apps/add_backend/zk_add/attendance_force_delivery.py:307-368 | Every one of the seventeen interleaved steps keeps the protocol invariant: append-only decisions, send intents only on the last direct approval, workers and posts backed by saved decisions |
| DeliveryProtocol.InvariantAfter | apps/add_backend/zk_add/attendance_force_delivery.py:307-368 | The invariant holds after every run of steps |
| DeliveryProtocol.QueuedLedger | apps/add_backend/zk_add/attendance_direct_ords.py:606-636 | Queueing never loses a decision or a send intent, and adds an approval only when the last one was direct and never sent |
| DeliveryProtocol.ClaimedLedger | apps/add_backend/zk_add/worker.py:877-1127 | Claiming keeps every decision, payload and send intent and never lowers the attempt number |
| DeliveryProtocol.ReservedLedger | apps/add_backend/zk_add/attendance_force_delivery.py:98-119 | Saving a send intent for a claim that some decision approved leaves the intent on the current approval only |
| DeliveryTheorems.AtMostOneApprovalReserves | apps/add_backend/zk_add/attendance_direct_ords.py:580-636 | In every reachable state at most one direct approval of the punch ever has a reserved POST |
| DeliveryTheorems.ForcedDirectPostsAgree | apps/add_backend/zk_add/attendance_force_delivery.py:98-119 | All direct POSTs of the forced lane are one payload, frozen by the approval whose intent was saved before them |
| DeliveryTheorems.CertifiedMeansStored | apps/add_backend/zk_add/attendance_force_delivery.py:122-143 | ACKED_CHECK by the content check is written only when Oracle stores the current approval's frozen payload, which was really posted |
| DeliveryTheorems.AcknowledgesExactlyWhatIsStored | apps/add_backend/zk_add/attendance_force_delivery.py:183-304 | In every reachable state the newest claim's result acknowledges exactly on a match: Oracle then stores the current approval's payload, the item is CONFIRMED with that payload as verified and the event is confirmed; a rejection is QUARANTINED_REJECTED, only a missing or unknown answer retries; the outbox row always ends where the event does; an outdated claim changes nothing |
| DeliveryTheorems.SettledUntilMoved | apps/add_backend/zk_add/attendance_force_delivery.py:183-304 | From an acknowledged row with no claim left to split, over any run, no claim is enabled and the row stays acknowledged until something outside delivery moves it |
| DeliveryHandover.SerialAcknowledgedStays | apps/add_backend/zk_add/worker.py:1958-1989 | The same for every run of one worker process: a punch it acknowledged is never claimed again |
| DeliveryOutcomes.QueueDecides | apps/add_backend/zk_add/attendance_direct_ords.py:1196-1275 | An item becomes the newest approval if and only if it stands as approved and may replace the one before; otherwise it waits for the claim in flight, needs review or is skipped, each in exactly one case |
| DeliveryOutcomes.ReplaceableExactly | apps/add_backend/zk_add/attendance_direct_ords.py:580-636 | An approval may be replaced if and only if it is direct, stopped or no longer valid, and nothing of it is in flight, confirmed, released or posted |
| DeliveryOutcomes.ClaimDecides | apps/add_backend/zk_add/worker.py:877-1127 | A claim carries away exactly the payload of whoever owns the punch, under the next attempt number, or holds the punch for exactly one reason |
| DeliveryOutcomes.SplitDecides | apps/add_backend/zk_add/attendance_force_delivery.py:44-95 | A claim goes unchanged to the lane that owns the punch at the split, or the punch is held |
| DeliveryOutcomes.AuthorizesExactly | apps/add_backend/zk_add/attendance_force_delivery.py:168-180 | A claim may send if and only if it owns the row and its payload is the validated one of the current approval |
| DeliveryOutcomes.ReservesExactly | apps/add_backend/zk_add/attendance_force_delivery.py:98-119 | An intent is counted exactly for the owner's current approval: the first one always, any other after a MISSING check |
| DeliveryOutcomes.ApprovalIsNeverStuck | apps/add_backend/zk_add/attendance_force_delivery.py:307-368 | From every state in which a validated approval waits for its claim and Oracle holds nothing else, workers and Oracle alone have a run that stores its payload, confirms it and acknowledges the punch, earlier lost POSTs included |
| DeliveryOutcomes.ReadyItemIsDelivered | apps/add_backend/zk_add/attendance_direct_ords.py:1196-1275 | The same from every READY item that stands as approved and may be queued |
| DeliveryTheorems.NewClaimFencesOlder | apps/add_backend/zk_add/attendance_force_delivery.py:168-230 | Once the row is claimed again, no claim already split by then can change a row, save an intent or pass authorization, after any further run |
| DeliveryTheorems.SplitJoinsCurrentClaim | apps/add_backend/zk_add/attendance_force_delivery.py:44-95 | A claim still waiting for its split takes the row's current attempt there, so it owns the row exactly when the row is in flight; its payload is the current approval's validated one |
| DeliveryTheorems.HandoverIsSafeExactly | apps/add_backend/zk_add/attendance_direct_ords.py:496-556 | In every reachable state, several worker processes included, a handover to ordinary delivery means no approval ever reserved a POST, or only the current one did and the punch's CNIC is the posted one; the CNIC sent equals it exactly when the claim still carries the punch's CNIC |
| DeliveryHandover.StepKeepsLock | apps/add_backend/zk_add/worker.py:1958-1989 | While a claim waits to be split under the delivery lock, every step keeps it the row's newest claim, keeps every worker fenced, and keeps whatever was posted under the CNIC it carries |
| DeliveryHandover.SerialHandoverSendsPostedCnic | apps/add_backend/zk_add/worker.py:1958-1989 | In every run of one worker process, what a handover sends names the CNIC of whatever may have been posted, and only the current approval posted |
| DeliveryHandover.SerialSplitsNewestClaim | apps/add_backend/zk_add/worker.py:1958-1989 | In every run of one worker process the claim being split is the row's newest and every worker belongs to an older attempt |
| DeliveryHandover.ImmediateSplitSendsComparedCnic | apps/add_backend/zk_add/attendance_force_delivery.py:44-55 | With nothing between claim and split, the CNIC ordinary delivery sends is the posted one, whatever other claims wait |
| DeliveryHandover.OwnedHandoverSendsPunchCnic | apps/add_backend/zk_add/attendance_direct_ords.py:1165-1193 | Over every run, whatever a claim that still owns its row hands to ordinary delivery, a direct payload included, names the CNIC the punch carried at the claim |
| DeliveryTheorems.IntentAheadExactly | apps/add_backend/zk_add/attendance_force_delivery.py:44-95 | A step keeps "every direct payload sent has a saved intent" if and only if it is not a lane switch |
| DeliveryTheorems.OneDirectPayloadUnlessSwitched | apps/add_backend/zk_add/attendance_direct_ords.py:1196-1263 | Over every run without a lane switch (the split taking over a claim whose approval stopped since the claim, with no saved intent) Oracle is never sent two different direct payloads, by any lane |
| DeliveryRaces.TwoDirectPayloadsAfterLaneSwitch | apps/add_backend/zk_add/attendance_force_delivery.py:44-95 | For any two payloads there is a run of one worker process, each approval bound to the punch's CNIC, after which both were sent as direct payloads, the first with no saved intent |
| DeliveryRaces.StaleClaimSendsAnotherCnic | apps/add_backend/zk_add/attendance_direct_ords.py:510-543 | With a second worker process claiming in between, there is a reachable state in which the split hands over a claim whose CNIC differs from the posted one |
| DeliveryRaces.WaitingClaimIsNotFenced | apps/add_backend/zk_add/attendance_force_delivery.py:63-74 | There is a reachable state in which a claim made before the row was claimed again is split afterwards and may write the row |
| DeliveryOutcomes.AppliesOnlyCurrent | apps/add_backend/zk_add/attendance_force_delivery.py:183-230 | A result is applied only for the row's owner, its current approval and exactly the payload that one froze |
| DeliveryOutcomes.ForceApprovalQueues | apps/add_backend/zk_add/attendance_force_release.py:945-1024 | A force release puts the punch and its row back in line under its CNIC, keeping the attempt number, as the newest approval |
| DeliveryOutcomes.ForcedPunchIsDelivered | apps/add_backend/zk_add/attendance_force_delivery.py:307-368 | From every state in which a force release approves a held punch and Oracle has no other payload, workers and Oracle alone have a run that delivers it |
| IdentityHistory.HistoryStore.Observe | apps/add_backend/zk_add/attendance_identity_evidence.py:37-137 | One snapshot extends, revokes, bridges, closes and opens intervals; the new rows are `Observed` of the old ones |
| IdentityContinuity.HistoryProven | apps/add_backend/zk_add/attendance_identity_evidence.py:37-137 | For every log of snapshots: at most one open interval per device user, and every interval spans snapshots that were all complete, stable, consecutive in revision and showed its serial, user ID, UID and CNIC |
| IdentityCoverage.HistoryLeavesNothingOut | apps/add_backend/zk_add/attendance_identity_evidence.py:72-134 | For every log: each usable user of each good snapshot is recorded by an interval with that serial, user ID, UID, CNIC and fingerprint that includes the snapshot |
| IdentityCoverage.UsableUserIsOpen | apps/add_backend/zk_add/attendance_identity_evidence.py:72-134 | After a good snapshot each usable user of it has an open interval that shows them |
| IdentityCoverage.HistoryEndsRight | apps/add_backend/zk_add/attendance_identity_evidence.py:74-137 | For every log: an interval is closed by the first snapshot that does not show its person and fingerprint again, ends there or at the card write that changed only the fingerprint, and is revoked if and only if that snapshot is good and lists its user as unusable |
| IdentityCoverage.HistoryBeginsRight | apps/add_backend/zk_add/attendance_identity_evidence.py:80-134 | For every log: an interval begins at its first snapshot, or at the end of the interval a card write alone interrupted, and never where it could have continued one |
| IdentityContinuity.HistoryWellFormed | apps/add_backend/zk_add/attendance_identity_evidence.py:37-137 | Every interval has from <= until and its own id |
| IdentityContinuity.CnicsNeverOverlap | apps/add_backend/zk_add/attendance_identity_evidence.py:37-137 | With strictly increasing times, intervals of one device user naming different CNICs never share an instant |
| IdentityContinuity.CoveringIsProven | apps/add_backend/zk_add/attendance_release_safety.py:233-237 | A record that covers a punch was shown by snapshots on both sides of it, or is open and was confirmed within the tolerance |
| EvidenceIndex.Halves | apps/add_backend/zk_add/attendance_release_safety.py:355-383 | Both halves of a split are nonempty and hold strictly fewer distinct punch times, so the split ends |
| EvidenceIndex.ReadSpanSound | apps/add_backend/zk_add/attendance_release_safety.py:355-383 | The recursive split answers every wanted time with spans that hold the whole window, or are truncated at a single instant |
| EvidenceIndex.ReadSpans | apps/add_backend/zk_add/attendance_release_safety.py:386-409 | For every list of terminal user IDs and every chunking, each wanted time is answered by a sound span |
| EvidenceIndex.SpanAgrees | apps/add_backend/zk_add/attendance_release_safety.py:296-327 | Covering, before and after records taken from a sound span equal those of a full scan; truncation is reported only where too many records really exist |
| EvidenceIndex.LoadPunchEvidence | apps/add_backend/zk_add/attendance_release_safety.py:412-511 | Every selected punch gets evidence that is truncated or equals the naive scan of the full history |
| PunchTimeIdentity.Classify | apps/add_backend/zk_add/attendance_release_safety.py:572-712 | The record-by-record gathering ends in the verdict on the whole evidence |
| PunchTimeIdentity.IdentifySupported | apps/add_backend/zk_add/attendance_release_safety.py:572-712 | What each verdict promises: no other CNIC or unknown holder for MATCHES_CURRENT, exactly one other for DIFFERS with the newest trusted record and continuity exactly for today's own edited user record, the old or the new record of a change exactly where each may be sent for CHANGED_NEAR_PUNCH, records that settle nothing for CONFLICT |
| PunchTimeIdentity.VerdictExactly | apps/add_backend/zk_add/attendance_release_safety.py:640-712 | When each of the six verdicts is reached, as an if and only if on the evidence alone |
| PunchTimeIdentity.TrustedExactly | apps/add_backend/zk_add/attendance_release_safety.py:572-640 | A verdict rests exactly on the unrevoked covering records of the punch's UID and on the two sides of a break that name one person |
| PunchTimeIdentity.NamedExactly | apps/add_backend/zk_add/attendance_release_safety.py:572-640 | A CNIC is reported if and only if a covering record, the capture, a deleted holder, the linked user or a nearest record of an uncovered punch names it |
| PunchTimeIdentity.SignalsExactly | apps/add_backend/zk_add/attendance_release_safety.py:572-660 | Each of the fourteen signals is reported if and only if the evidence says what it means |
| PunchTimeIdentity.ReportsWhere | apps/add_backend/zk_add/attendance_release_safety.py:572-712 | The reported position is where the punch lies among the records, and the basis says which kind of record the offered interval is |
| PunchTimeIdentity.IdentifyReports | apps/add_backend/zk_add/attendance_release_safety.py:572-712 | The verdict carries every CNIC, unknown holder and refusing signal of the evidence, whatever it concluded |
| PunchVerdicts.VerdictGrounded | apps/add_backend/zk_add/attendance_release_safety.py:572-712 | A verdict on evidence the snapshots prove is grounded in them: MATCHES_CURRENT and DIFFERS name the one CNIC the snapshots show across the punch or on both sides of a break, CHANGED_NEAR_PUNCH and NONE mean no recorded interval covers it, CONFLICT means another CNIC, an unknown holder or an unresolved duplicate is on record |
| PunchVerdicts.ShownThroughoutMatches | apps/add_backend/zk_add/attendance_release_safety.py:640-712 | A punch between two consecutive good snapshots that show the same user, with nothing else on record for it, is MATCHES_CURRENT for every log and every listing of its intervals |
| PunchVerdicts.JudgePunches | apps/add_backend/zk_add/attendance_direct_ords.py:302-314 | For every log of snapshots, every listing of its intervals and every selection of punches, each verdict read through the chunked index is grounded in the snapshots and equals the one on a full scan |
| DirectApproval.ApprovalIsAnswered | apps/add_backend/zk_add/attendance_direct_ords.py:200-272 | An accepted approval faces no unanswerable evidence; another CNIC is overruled only by an explicit CURRENT choice and only one, and over a DIFFERS verdict only where every trusted record has today's user ID and UID, the UIDs agree and there is no prior link or tombstone; a held CNIC only by confirmation; its tokens are exactly that evidence |
| DirectApproval.ChoicesAreOffers | apps/add_backend/zk_add/attendance_direct_ords.py:200-215 | The choices offered are exactly those the evidence allows |
| DirectApproval.ApprovedExactly | apps/add_backend/zk_add/attendance_direct_ords.py:677-777 | An approval is accepted if and only if the evidence, the guards and the choice allow it, and which CNIC it then sends from which source |
| DirectApproval.RefusedForItsReason | apps/add_backend/zk_add/attendance_direct_ords.py:677-777 | Whatever reason a refused approval names is true of the evidence, the guards or the choice |
| DirectApproval.RevalidatesExactly | apps/add_backend/zk_add/attendance_direct_ords.py:321-367 | A saved approval passes a later check if and only if the same user, no new contradiction, no new holder and, for a punch-time CNIC, a readable record that still proves it |
| DirectApproval.SavedRevalidatesExactly | apps/add_backend/zk_add/attendance_direct_ords.py:321-340 | A punch that carries its own CNIC at a later check passes exactly for an approval of that kind, by the same user with the same current CNIC |
| DirectApproval.RevalidationRefusedForItsReason | apps/add_backend/zk_add/attendance_direct_ords.py:321-367 | A failed revalidation names the user, today's CNIC, the evidence or an unreadable record, and that is what failed |
| DirectApproval.ApprovalRevalidates | apps/add_backend/zk_add/attendance_direct_ords.py:321-367 | With nothing changed every accepted approval revalidates to itself |
| DirectApproval.OneClickReleases | apps/add_backend/zk_add/attendance_direct_ords.py:1093-1155 | One click on an unchanged punch is accepted if and only if no evidence has to be overruled |
| DirectApproval.UnanswerableAlwaysRefuses | apps/add_backend/zk_add/attendance_direct_ords.py:236-367 | Unknown holder, truncation and unresolved duplicate refuse the resolution, the approval and every revalidation |
| DirectApproval.RevalidationIsAnswered | apps/add_backend/zk_add/attendance_direct_ords.py:321-367 | A revalidation that passes sends the same CNIC from the same source for the same user and accepts no new evidence |
| DirectApproval.ApprovedPunchStaysAnswered | apps/add_backend/zk_add/attendance_direct_ords.py:446-491 | From approval through queueing to every delivery check nothing new is ever overruled and the CNIC never changes |
| DirectApproval.QuickDecisions | apps/add_backend/zk_add/attendance_direct_ords.py:1093-1117 | One click decides exactly the rows it may, each with the evidence shown, and sends now exactly those due for automatic release |
| DirectApproval.OneClickOverrulesNothing | apps/add_backend/zk_add/attendance_direct_ords.py:1093-1155 | Whatever changes after the preview, a one-click approval stores an empty contradiction set |
| BatchContent.ContentDigestsAgree | apps/add_backend/zk_add/attendance_batches.py:97-127 | Content digests are equal exactly when the lists agree on everything but well-formed capture times |
| BatchContent.EvidenceKeepsTheRow | apps/add_backend/zk_add/attendance_batches.py:400-428 | An object row is recovered from its quarantine evidence if and only if it has no `__batch_context` key; with one, every other value under that key leaves the same evidence |
| BatchContent.RebuiltIsTheRow | apps/add_backend/zk_add/attendance_batches.py:518-533 | Rebuilding evidence gives the row itself, exactly for the rows that can be rebuilt |
| BatchRows.Ingest | apps/add_backend/zk_add/service.py:4575-4608 | Ordered insert-if-absent: the first of each unseen UID is accepted, every other is a duplicate |
| BatchRows.SettleRows | apps/add_backend/zk_add/attendance_batches.py:816-880 | The two passes with the shrinking set give each row its disposition, and the ingest's counts are those of the items |
| BatchRows.AcceptedOnceAtFirst | apps/add_backend/zk_add/attendance_batches.py:857-880 | Of the rows with one new UID exactly the first is ACCEPTED and the rest are DUPLICATE; none if it was stored before |
| BatchRows.QuarantineRows | apps/add_backend/zk_add/attendance_batches.py:780-800 | A batch-level error keeps every row as its own evidence |
| BatchSettlement.TotalsAlwaysAgree | apps/add_backend/zk_add/attendance_batches.py:431-451 | Neither totals error can fire: the counts cover every item and every bounded row |
| BatchSettlement.RebuildContent | apps/add_backend/zk_add/attendance_batches.py:495-534 | The row loop computes the rebuilt content digest or refuses |
| BatchSettlement.BatchStore.ReadLegacy | apps/add_backend/zk_add/attendance_batches.py:592-611 | The newest candidates are read until one matches, each leaving the unset ones |
| BatchSettlement.BatchStore.RowsStillValid | apps/add_backend/zk_add/attendance_batches.py:614-642 | A replay is allowed exactly when every row the receipt accepted is still valid with the same UID |
| BatchSettlement.BatchStore.SettleBatch | apps/add_backend/zk_add/attendance_batches.py:645-888 | Exact retry, capture replay or new receipt: the new store is `Settle` of the old one, with no totals error |
| BatchTheorems.RebuiltIsOriginal | apps/add_backend/zk_add/attendance_batches.py:495-534 | A content digest rebuilt from evidence is the original batch's, and is rebuilt exactly when every row can be |
| BatchTheorems.StoresOnlySoundBatches | apps/add_backend/zk_add/attendance_batches.py:756-775 | Rows are stored only from a well-named, bounded batch with no other digest under its id and a right reported digest |
| BatchOutcomes.SoundBatchIsStored | apps/add_backend/zk_add/attendance_batches.py:756-888 | The converse, for both versions: a well-named list of 1 to 100 rows with no other digest under its id, its digest right or not reported and no receipt yet gets a new receipt; each valid row is ACCEPTED at its UID's first occurrence and DUPLICATE after, each other QUARANTINED with its evidence, and exactly the valid UIDs are added |
| BatchOutcomes.SoundBatchStaysStored | apps/add_backend/zk_add/attendance_batches.py:756-888 | Over all runs, every valid row of such a batch is stored and stays so after any further run |
| BatchOutcomes.UnsoundStoresNothing | apps/add_backend/zk_add/attendance_batches.py:756-815 | Any other payload stores no UID, and a receipt made for it quarantines every row |
| BatchOutcomes.UnlistedIsKeptWhole | apps/add_backend/zk_add/attendance_batches.py:780-815 | A payload with no event list is kept whole as one quarantined item under the digest of all of it |
| BatchOutcomes.OwnReceiptAnswers | apps/add_backend/zk_add/attendance_batches.py:680-708 | A payload is answered from its own receipt if and only if it has one |
| BatchOutcomes.RetryMarksContent | apps/add_backend/zk_add/attendance_batches.py:680-708 | Repeating an event list leaves its receipt marked with that list's content, whichever version made it |
| BatchOutcomes.RecaptureIsReplayed | apps/add_backend/zk_add/attendance_batches.py:557-642 | A recaptured batch is answered from the first receipt of the same rows that quarantined none, else the first of all, exactly where the rows it stored still validate |
| BatchOutcomes.ReplaysOnlyRecaptures | apps/add_backend/zk_add/attendance_batches.py:557-760 | Only a well-formed batch that reports no digest, has no receipt of its own and meets another digest under its id is answered from another receipt, and that one has its content |
| BatchOutcomes.ReadsAtMostThree | apps/add_backend/zk_add/attendance_batches.py:580-611 | No settlement decrypts more than three receipts, and only such a batch makes it decrypt any |
| BatchOutcomes.PreDigestRowsAreReplayed | apps/add_backend/zk_add/attendance_batches.py:580-611 | Rows only pre-digest receipts hold are answered from the newest of their three newest whose evidence rebuilds to them |
| BatchRuns.NoPunchLost | apps/add_backend/zk_add/attendance_batches.py:645-888 | After any run of this version and the one before content digests, every row of every acknowledged event list is stored or in evidence equal to it up to a well-formed capture time and a `__batch_context` value of its own, replays against rebuilt digests included |
| BatchRuns.EvidenceRecoversRow | apps/add_backend/zk_add/attendance_batches.py:400-428 | For a row without the annotation's key that evidence, stripped, is the original row |
| BatchRuns.OneDigestPerBatch | apps/add_backend/zk_add/attendance_batches.py:680-772 | Over all runs of both versions, every receipt of an id that stored a row carries the digest of the first receipt of that id |
| BatchRuns.RetryAnswersTheSame | apps/add_backend/zk_add/attendance_batches.py:680-708 | Over all runs of both versions, repeating a payload that has its own receipt from either, after any run in between, adds no receipt, item or event and answers the same |
| BatchRuns.EvidenceIsReadOnce | apps/add_backend/zk_add/attendance_batches.py:557-611 | Over all runs of both versions no pre-digest receipt is decrypted twice |
| BatchLegacy.SomeLedgerReadsTwo | apps/add_backend/zk_add/attendance_batches.py:580-611 | Some reached ledger has decrypted two pre-digest receipts |
| BatchLegacy.SomeLedgerReplaysUnmarked | apps/add_backend/zk_add/attendance_batches.py:580-611 | In some reached ledger a batch settles to a pre-digest receipt it repeats up to its capture time |
| BacklogMembers.IdRanges | apps/add_backend/zk_add/attendance_identity_backlog.py:139-147 | The run-length ranges expand back to the sorted IDs, and no other ranges that do are fewer |
| BacklogMembers.MembersAfter | apps/add_backend/zk_add/attendance_identity_backlog.py:150-162 | The first `limit` members beyond the cursor, in ID order |
| BacklogRelease.ZoneRelease.FollowUp | apps/add_backend/zk_add/attendance_identity_backlog.py:620-692 | Open items are followed in order up to the read limit and the closing ones counted |
| BacklogRelease.ZoneRelease.ReleaseBatch | apps/add_backend/zk_add/attendance_identity_backlog.py:702-823 | One batch within the budget; the cursor stops before the first member it could not judge |
| BacklogRelease.ZoneRelease.AdvanceOnce | apps/add_backend/zk_add/attendance_identity_backlog.py:826-905 | One tick: follow up, release while releasing, finish when nothing is open |
| BacklogRelease.ZoneRelease.Stop | apps/add_backend/zk_add/attendance_identity_backlog.py:925-949 | A stop releases no more and keeps following what was released |
| BacklogTheorems.BatchLogsWhatItFound | apps/add_backend/zk_add/attendance_identity_backlog.py:702-823 | Every member passed is logged as it was found, and a batch ends early only at a member that could not be judged |
| BacklogTheorems.ClosedForItsReason | apps/add_backend/zk_add/attendance_identity_backlog.py:620-692 | Over any run, a released punch reported delivered or for review was found so by the tick that closed it; one kept held was closed on a changed terminal, or by its third failed check, each failed check on a snapshot other than the one checked before |
| BacklogOutcomes.OpenItemSays | apps/add_backend/zk_add/attendance_identity_backlog.py:620-692 | Where every open item stands after a tick, for each thing the tick may find |
| BacklogTheorems.EveryOpenItemIsFollowed | apps/add_backend/zk_add/attendance_identity_backlog.py:633-640 | The read limit never leaves an open item out |
| BacklogTheorems.NothingLostOrDoubleCounted | apps/add_backend/zk_add/attendance_identity_backlog.py:702-905 | Over every run: released = open + delivered + review + re-held and kept, released within the cap, open within the limit, and until the cap is reached the members up to the cursor are exactly those logged |
| BacklogTheorems.EachMemberOnce | apps/add_backend/zk_add/attendance_identity_backlog.py:702-823 | No member is ever logged twice |
| BacklogTheorems.FinishedRunsAreDone | apps/add_backend/zk_add/attendance_identity_backlog.py:880-905 | COMPLETED and STOPPED only with nothing open; COMPLETED only past every member or at the cap |
| BacklogOutcomes.BatchPasses | apps/add_backend/zk_add/attendance_identity_backlog.py:702-823 | A batch passes exactly the next members its size, open limit and cap allow, up to the first that cannot be judged, and the cursor stands on the last of them |
| BacklogOutcomes.BatchWaitsOrEnds | apps/add_backend/zk_add/attendance_identity_backlog.py:722-741 | Without room a batch changes nothing; at the cap or behind the last member the cursor goes to the end |
| BacklogOutcomes.TickDecidesStatus | apps/add_backend/zk_add/attendance_identity_backlog.py:880-905 | A releasing run completes exactly past its last member with nothing open, a stopped one stops exactly with nothing open, a finished one is never touched |
| BacklogOutcomes.StopDecidesStatus | apps/add_backend/zk_add/attendance_identity_backlog.py:925-949 | A stop ends a releasing run at once exactly if nothing is open, and changes nothing but its status |
| BacklogOutcomes.StoppedReleasesNoMore | apps/add_backend/zk_add/attendance_identity_backlog.py:925-949 | Over any run, once stopped or finished nothing more is released |
| BacklogOutcomes.ClearTicksComplete | apps/add_backend/zk_add/attendance_identity_backlog.py:826-905 | Whatever was left open, one undisturbed tick more than there are members left completes a releasing run |
| BacklogTheorems.ApprovedIsOk | apps/add_backend/zk_add/attendance_identity_backlog.py:504-560 | For any distinct row IDs up to the check's last one, the run saved at approval satisfies everything the runs keep |
| BacklogTheorems.CreateRelease | apps/add_backend/zk_add/attendance_identity_backlog.py:504-560 | An approval freezes exactly the chosen punches, in ID order, in the fewest ranges possible, and its run starts sound |
| ForceRelease.ForceRun.ReleaseBatch | apps/add_backend/zk_add/attendance_force_release.py:1048-1079 | A batch of ready punches is applied and the device is done when none is left |
| ForceRelease.ForceRun.AdvanceOnce | apps/add_backend/zk_add/attendance_force_release.py:1224-1304 | One scheduler step on the job, its devices and its items |
| ForceRelease.ForceRun.Start | apps/add_backend/zk_add/attendance_force_release.py:835-922 | Starting sends every device with ready punches to a fresh sync |
| ForceRelease.ForceRun.Apply | apps/add_backend/zk_add/attendance_force_release.py:1109-1156 | Stop, pause and resume in the states that allow them |
| ForceTheorems.NoReadyPunchIsStranded | apps/add_backend/zk_add/attendance_force_release.py:1159-1191 | In every run a ready punch of a running job belongs to a device the scheduler still selects |
| ForceTheorems.RunsEndDone | apps/add_backend/zk_add/attendance_force_release.py:1194-1221 | WAITING_ORACLE, completed or stopped only with nothing ready; the last two also with nothing waiting |
| ForceOutcomes.CompletedMeansConfirmed | apps/add_backend/zk_add/attendance_force_release.py:1082-1221 | In a run reported COMPLETED every punch was excluded by the scan that read it, or waited and was answered CONFIRMED by Oracle in a step that asked |
| ForceOutcomes.EveryStatusHasItsReason | apps/add_backend/zk_add/attendance_force_release.py:1082-1304 | Over any run, every punch got its status in a step that had the reason for it (a scan verdict, its own device's release, Oracle's answer, a lost device or a stop) and kept it since |
| ForceOutcomes.WaitingIsAnswered | apps/add_backend/zk_add/attendance_force_release.py:1082-1105 | A waiting punch is confirmed exactly on Oracle's confirmation, sent to review exactly on its refusal, and otherwise goes on waiting |
| ForceOutcomes.FirstBatchIsApplied | apps/add_backend/zk_add/attendance_force_release.py:1048-1064 | A releasing device with a fresh sync has exactly its first 25 ready punches applied, each as its application went |
| ForceOutcomes.LostExactly | apps/add_backend/zk_add/attendance_force_release.py:1224-1304 | A served device becomes unavailable exactly when it is gone or its stage found it moved on |
| ForceOutcomes.LostDeviceIsSkipped | apps/add_backend/zk_add/attendance_force_release.py:1286-1298 | A running job skips the next 100 ready punches of a lost device |
| ForceOutcomes.CheckedInFourVisits | apps/add_backend/zk_add/attendance_force_release.py:233-757 | A device that goes well is checked in four visits, and every punch of its scan becomes an item with its verdict |
| ForceOutcomes.ReleasedInThreeVisits | apps/add_backend/zk_add/attendance_force_release.py:1048-1079 | A device that goes well asks, accepts and releases in three visits, and every ready punch is applied |
| ForceOutcomes.CheckEndsExactly | apps/add_backend/zk_add/attendance_force_release.py:805-832 | A check ends exactly when every device is scanned or lost |
| ForceOutcomes.AdvancingSettlesJob | apps/add_backend/zk_add/attendance_force_release.py:1194-1221 | Where a running, waiting or stopping job stands after a step, decided by its punches and devices alone |
| ForceOutcomes.StoppingHalts | apps/add_backend/zk_add/attendance_force_release.py:1247-1255 | A stopping job halts exactly its next 100 ready punches |
| ForceOutcomes.StoppingFinishesDevices | apps/add_backend/zk_add/attendance_force_release.py:1256-1259 | A stopping job finishes every device that is not lost |
| ForceOutcomes.ControlsSay | apps/add_backend/zk_add/attendance_force_release.py:1109-1156 | What start, stop, pause and resume do to the job and each device, and when they do nothing |
| ForceOutcomes.ServesOldestFreeOfFive | apps/add_backend/zk_add/attendance_force_release.py:1159-1191 | Of the five devices served longest ago that still have work, the first free one is served next |
| ForceTheorems.SentOnlyAfterFreshSync | apps/add_backend/zk_add/attendance_force_release.py:1048-1064 | Over any run, a punch waits for Oracle or is confirmed only after a step served its own bound, connected, enabled, releasing device and queued it, on a sync that device accepted after the last start or resume of the run |
| ForceTheorems.DoneExactlyWhenNothingLeft | apps/add_backend/zk_add/attendance_force_release.py:1060-1079 | A device is marked done exactly when its batch leaves no ready punch |
| ForceTheorems.OldestFreeDeviceIsServed | apps/add_backend/zk_add/attendance_force_release.py:1159-1191 | The least recently served device is served next when free, and then goes to the back |
| ManualGuard.FlushSession.RetainApprovalRequirement | apps/add_backend/zk_add/attendance_manual_guard.py:105-151 | Both loops: every written event is guarded, then every outbox row against the guarded events, nothing else changes, and no outbox row is left deliverable whose event lacks the approval it needs |
| ManualGuard.FlagIsWhetherApprovalIsNeeded | apps/add_backend/zk_add/attendance_manual_guard.py:114-125 | The flag a flush leaves is whether the written row needs approval, whatever old values the session remembers |
| ManualGuard.GuardSays | apps/add_backend/zk_add/attendance_manual_guard.py:9-18 | A flush changes only the flag, to whether the row needs approval, and the status, back to BLOCKED_IDENTITY exactly for unapproved delivery |
| ManualGuard.OutboxGuardSays | apps/add_backend/zk_add/attendance_manual_guard.py:133-151 | An outbox row is held again exactly when it would deliver an event that needs an approval and has none |
| ManualGuard.FlagIsSticky | apps/add_backend/zk_add/attendance_manual_guard.py:105-132 | The flag stays set from a held flush on while writers leave it alone and no flush carries the release markers |
| ManualGuard.HeldIsNeverDeliveredUnapproved | apps/add_backend/zk_add/attendance_manual_guard.py:9-18 | A punch once flushed as held is never later flushed as queued, in flight or acknowledged without an approval at that flush or release markers since the hold |
| ManualGuard.DeliveredExactlyWhenReleasedOrCleared | apps/add_backend/zk_add/attendance_manual_guard.py:117-132 | The hook alone, for any writer: an unapproved flush goes through exactly when it carries the release markers or clears the flag |
| ManualGuard.HookAloneTrustsClearedFlag | apps/add_backend/zk_add/attendance_manual_guard.py:117-132 | The hook alone would let a write that clears the flag queue a held punch; no present writer does this and the database guards below stop it |
| ManualGuard.DeliveredExactlyWhenVerified | apps/add_backend/migrations/versions/20260929_0037_reconciled_cnic_guard.py:89-100 | Hook and triggers together, for any writer: an unapproved transaction delivers a flagged punch exactly when the database verifies its release; otherwise the punch is held again or the transaction undone |
| ManualGuard.HeldPunchNeedsApprovalOrProof | apps/add_backend/migrations/versions/20260929_0040_manual_hold_event_diagnostic.py:14-48 | Over any history of transactions by any writers, a punch once stored as held enters delivery only with its approval (and a content match where a force decision acknowledges it) or after a release the database verified since the hold |
| ManualGuard.FlaggedForACause | apps/add_backend/migrations/versions/20260929_0037_reconciled_cnic_guard.py:89-100 | Over any history a punch is flagged only if some transaction wrote it held or flagged |
| ManualGuard.ApprovedIsStored | apps/add_backend/migrations/versions/20260929_0040_manual_hold_event_diagnostic.py:14-48 | An approved transaction is stored as written; a force decision acknowledges only with its content match |
| Recovery.RecoveryStore.CreateCorrection | apps/add_backend/zk_add/attendance_recovery.py:1481-1633 | A correction is made only when neither this source row nor another holding the same physical record has one |
| Recovery.RecoveryStore.ProcessItem | apps/add_backend/zk_add/attendance_recovery.py:1660-1681 | A failed savepoint leaves nothing behind but the failed item |
| Recovery.RecoveryStore.Advance | apps/add_backend/zk_add/attendance_recovery.py:1636-1709 | One bounded batch of pending, unlocked items; the job closes only when none is pending |
| Recovery.RecoveryStore.ControlJob | apps/add_backend/zk_add/attendance_recovery.py:1712-1771 | Pause, resume, cancel and retry with their item and counter changes |
| RecoveryTheorems.CountersAddUp | apps/add_backend/zk_add/attendance_recovery.py:1636-1771 | Over every run requested = pending + succeeded + failed + skipped, and a job completes only with nothing pending |
| RecoveryTheorems.OneDerivedPunchPerRecord | apps/add_backend/zk_add/attendance_recovery.py:1497-1533 | Over every run a terminal record or Hikvision event has at most one derived punch |
| RecoveryTheorems.SucceededHasItsPunch | apps/add_backend/zk_add/attendance_recovery.py:1535-1633 | Over every run, a correction item that succeeded has a created correction of its source to its own time, with the derived punch of that version at that time |
| RecoveryTheorems.VersionsAreNumbered | apps/add_backend/zk_add/attendance_recovery.py:1527-1535 | Over every run, each correction of a source is numbered one above the highest before it, and the first is 1 |
| RecoveryOutcomes.CorrectsOnce | apps/add_backend/zk_add/attendance_recovery.py:1493-1633 | An attempted correction is made exactly where its record has none; then one correction and its punch are added, else nothing |
| RecoveryOutcomes.OthersCorrectNothing | apps/add_backend/zk_add/attendance_recovery.py:1660-1681 | A rejected or crashed attempt, or one of a delivery job, leaves corrections and derived punches as they were |
| RecoveryOutcomes.TakenIsCorrected | apps/add_backend/zk_add/attendance_recovery.py:1636-1681 | After an advance every record whose correction was attempted without failing has one |
| RecoveryOutcomes.AdvanceSettles | apps/add_backend/zk_add/attendance_recovery.py:1636-1681 | An advance settles exactly the first pending, unlocked items up to its bound, each as its attempt went, and touches no other item or job |
| RecoveryOutcomes.AdvanceCloses | apps/add_backend/zk_add/attendance_recovery.py:1682-1709 | An advanced job is done exactly with nothing pending, and clean exactly when every item succeeded |
| RecoveryOutcomes.ControlsSay | apps/add_backend/zk_add/attendance_recovery.py:1712-1771 | What pause, resume, cancel and retry do to a job and each of its items, and when they do nothing |
| ShardBalance.GreedyIsNearBest | scripts/run_ci_tests.py:55-62 | The heaviest greedy shard is at most 4/3 - 1/(3 count) of the heaviest shard of any allocation |
| ShardPlanner.Allocate | scripts/run_ci_tests.py:56-62 | The loop over shards and loads places each file on the lightest shard |
| ShardPlanner.Partition | scripts/run_ci_tests.py:48-65 | Validation, the greedy loop and the final sort, or a refusal |
| ShardPlanner.PartitionSucceedsExactly | scripts/run_ci_tests.py:48-65 | Refused exactly for invalid input or a count below one or above the number of files; the empty-shard error never fires |
| ShardPlanner.PartitionCovers | scripts/run_ci_tests.py:48-65 | Every collected file is in exactly one shard, no shard is empty, and nothing else is in any |
| ShardPlanner.PartitionForgetsOrder | scripts/run_ci_tests.py:20-65 | The result does not depend on the order of collection |
| ShardPlanner.PartitionIsNearBest | scripts/run_ci_tests.py:48-65 | If some other plan keeps every shard within t, no shard here exceeds (4/3 - 1/(3 count)) t |
| ShardPlans.AcceptsExactlyFullSets | scripts/run_ci_tests.py:68-102 | The verifier accepts exactly the plans of all shards of one collection and one set of weights, in any order |
| CaptureLatency.PercentileUpperMs | apps/add_backend/zk_add/capture_latency.py:41-52 | The loop returns the bound of the first bucket whose total reaches the rank, or no answer |
| CaptureLatency.PercentileBoundsTheSample | apps/add_backend/zk_add/capture_latency.py:41-52 | For any samples the histogram counts, the answer exists, is at least the exact ranked sample, in its bucket, and at most the maximum |
| CaptureLatency.PercentileRises | apps/add_backend/zk_add/capture_latency.py:41-52 | A higher percentile never gives a lower bound |
| CaptureLatency.HundredIsTheMaximum | apps/add_backend/zk_add/capture_latency.py:41-52 | At 100 the answer is the true maximum |
| CaptureLatency.ValidExactly | apps/add_backend/zk_add/capture_latency.py:10-39 | The check accepts exactly the histograms of real samples within the counter, saturated only when it is exhausted |
| CaptureLatency.AnswersExactly | apps/add_backend/zk_add/capture_latency.py:41-52 | A valid histogram refuses exactly percentiles outside 1 to 100 and has no answer exactly when empty or saturated |

## Left out

- Several punches at once: the delivery protocol is modelled for one punch; transactions on other punches touch none of its rows and enter only through the environment step.
- The damaged legacy event UID path of `deliver_forced` and `verify_legacy`: it never POSTs.
- Ordinary delivery after the handover: its membership check and result are not modelled; a claim handed over may be posted at any time or never, and what its result writes is an environment step.
- Approvals saved before the stricter identity proof and before per-punch choices, which keep their own weaker rule.
- `identity_proof`, `_event_lane`, `source_evidence`, time refusals and the newest-slot check: each is a guard decided in one branch and appears as a parameter that refuses or allows.
- `_observe` and the job status of direct runs, run listings, previews, serializers, audit rows, alerts, counters of observations, HTTP routes, request schemas and CSRF.
- The code before content digests is not part of this model's source: `SettleUnmarked` is what its receipts and the comments at attendance_batches.py:580-588 say of it.
- Batches whose payload is not an object: they share one digest by construction and are quarantined.
- The event UID a quarantined item copies from its row for display: nothing reads it back.
- Two connectors correcting the same physical record in concurrent transactions: each savepoint is one atomic step here, while the source serializes by connector only.
- JSON type checks of shard plans and the path rules of collected tests: the former are types here, the latter one predicate on a test.
- ForceRelease.ForceRun.AdvanceOnce: which hundred waiting items are observed first is left to the environment, because only the statuses it may write matter here.
- IdentityHistory.HistoryStore.Observe: one terminal's intervals are modelled, with ids in order of creation; intervals of other terminals never meet them.
- The proofs the database re-derives before it verifies a release (`add_auto_synced_cnic_verified`, `add_auto_reconciled_cnic_verified`): each is one boolean of the transaction that implies the release markers.
- Cryptography, firmware, provisioning and the frontend.
