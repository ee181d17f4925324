# Verification of the calendar and notification core

A Dafny 4.11 model of the parts of the repository where several writers race over one SQL database, or
where a rule must hold over a whole history and not just in one call.  The database is a value (maps of
rows); a batch is atomic; every multi-row change goes through the conditional commit of `Cas.dfy`, whose
`Database` object the imperative operations update.  Loops and handlers of the source are methods with
invariants, each equated with a specification function; what the source promises is then proved about
those functions, call by call and over every run.

| file | subject |
|---|---|
| `Cas.dfy`, `Admission.dfy` | the guarded batch and SQLite's `changes()` register; registration slots from reservation to finished deletion as its smallest client |
| `Changes.dfy`, `FactStore.dfy`, `Publishing.dfy`, `PublishingPlans.dfy`, `PublishingRuns.dfy`, `PublishingOutcomes.dfy` | publishing facts: read, plan, guarded commit; three version counters under any interleaving |
| `PublishingDecision.dfy`, `PublishingLocks.dfy`, `PublishingRecords.dfy` | exactly when a candidate is published; what is locked and what locks protect; revisions, history, evidence |
| `PushTables.dfy`, `PushDelivery.dfy`, `PushTiming.dfy` | push messages and deliveries: leases, late writes, sweeps, receipts, the daily budget, retry times |
| `PushBindings.dfy`, `PushBindingRounds.dfy`, `PushBindingRuns.dfy`, `PushBindingOverflow.dfy` | push bindings: each account action, receipt and sweep; what an activation round can do; caps over runs; a run that passes the total cap |
| `CalendarNodes.dfy`, `CalendarPatches.dfy`, `PatchDecisions.dfy`, `PersonalFeed.dfy`, `FeedContents.dfy` | effective calendar nodes, correction patches, the personal feed and its shrink guard |
| `Versions.dfy`, `VersionAnswers.dfy`, `Derivation.dfy`, `DerivedTimes.dfy`, `YearCompletion.dfy` | the version timetable and its answers, derived times and their key, year completion |
| `PublicRead.dfy`, `PublicPages.dfy`, `SnapshotChunks.dfy` | paged public reads, snapshot chunking |
| `MailBudget.dfy` | the mail budget's decision table and ledger thresholds |
| `Time.dfy`, `Wrappers.dfy` | time values with their columns, and `Option` |

A run is a sequence of states in which every step is one of the modelled operations with arbitrary
arguments, including arguments read in earlier states.  Theorems about runs therefore speak about every
interleaving.

## What turned out to be different

- **Optional tail of a conditional commit.** An effect that hits two rows silences an optional last effect
  whose own predicate does match, and the call still reports `committed` (`Cas.OptionalTailCanBeSkipped`).
  `Cas.CommittedMeansAllIff` is the exact condition: a committed call applied everything exactly when every
  non-last effect touched one row or the last effect had nothing to do.  A plan without an optional last
  effect needs no condition (`Cas.CommittedMeansAll`).  An invariant error is raised after the batch has
  committed (`Cas.InvariantErrorIsPersisted`).
- **Late catch write in push delivery.** The catch branch of a send guards the message by its lease but the
  delivery by its status alone.  If that write lands while a newer claim of the same message is being
  called, message and delivery part (`PushDelivery.OvertakenWriteSplitsThem` is a complete run).
  `PushDelivery.SyncStep` shows this is the only way, in both directions.
- **Total of push bindings.** Pausing a pending binding after its deadline raises the total, so the cap of
  550 can be passed: `PushBindingOverflow.TotalCapIsPassed` is a complete run that ends with 551.
  `PushBindingRuns.PassesCapIff` says exactly which steps pass the cap, `PushBindingRuns.TotalIsBounded`
  bounds the total over runs.
- **Five-digit and short years.** At most one year of all fits, but completion finds it only when it has four
  digits, because dates are compared as formatted text (`YearCompletion.CompletionIsExact`).  For a reference
  from year 0 on, no fitting date is ever missed exactly when the reference's whole window lies in the years
  1000 to 9999 (`YearCompletion.NothingIsMissedIff`); `YearCompletion.OtherDigitsAreMissed` shows one missed
  year on each side.

## Model

| member | source | states |
|---|---|---|
| Cas.Database.ConditionalCommit | apps/worker/src/storage/cas.ts:146-222 | runs preamble, guard and chained effects as one batch and reports what the row counts mean; only an SQL error rolls it back |
| Cas.Database.SendEffects | apps/worker/src/storage/cas.ts:87-139 | each effect runs only when its predecessor directly changed one row |
| Cas.Database.CheckResults | apps/worker/src/storage/cas.ts:190-222 | the counts are read as the specification reads them |
| Cas.Database.CheckPlan | apps/worker/src/storage/cas.ts:108-165 | an optional update is allowed last only, and an update must set something |
| Cas.BrokenChainIsSilent | apps/worker/src/storage/cas.ts:87-139 | any register other than 1 silences the whole rest of the chain |
| Cas.GuardMissIsNoOp | apps/worker/src/storage/cas.ts:146-222 | a guard that finds no row leaves exactly the state after the preamble, whatever the effects are |
| Cas.AppliedEffectsFormAPrefix | apps/worker/src/storage/cas.ts:146-222 | the work left by a batch is that of a prefix of its effects |
| Cas.CommittedExactly | apps/worker/src/storage/cas.ts:190-222 | when a guard that hit is reported as committed, as an if-and-only-if on the effects |
| Cas.CommittedMeansAll | apps/worker/src/storage/cas.ts:146-222 | without an optional last effect, committed always means preamble, guard and all effects in order |
| Cas.CommittedMeansAllIff | apps/worker/src/storage/cas.ts:108-222 | a committed call applied all of its effects exactly when each non-last effect touched one row or the skipped optional tail had nothing to do |
| Cas.FailureRollsBack | apps/worker/src/storage/cas.ts:146-222 | a rejected or refused call leaves the initial state, a miss the state after the preamble |
| Cas.OptionalTailCanBeSkipped | apps/worker/src/storage/cas.ts:108-129 | a committed outcome that skipped its optional last effect |
| Cas.InvariantErrorIsPersisted | apps/worker/src/storage/cas.ts:190-222 | an invariant error does not undo the batch |
| Cas.GuardDecides | apps/worker/src/storage/cas.ts:166-222 | without SQL errors the rows the guard itself touched decide: none is a miss, one runs the chain, more leave an invariant error |
| Cas.GuardTriggersDoNotCount | apps/worker/src/storage/cas.ts:172-175 | rows written by the guard's triggers change neither the answer nor the state left |
| Admission.ReserveDecides | apps/worker/src/storage/admission.ts:31-76 | a full counter misses, a taken id or open e-mail rolls back, otherwise counter and reservation move together |
| Admission.ReleaseDecides | apps/worker/src/storage/admission.ts:93-138 | only an open reservation is closed, together with counter and audit entry |
| Admission.ConvertDecides | apps/worker/src/auth/consume/consume.ts:165-346 | completing a sign-up takes the challenge, turns the reservation into an account and counts the day's registration together or not at all |
| Admission.FinalizeDecides | apps/worker/src/accounts/lifecycle/cleanup.ts:67-100 | finishing a deletion replaces the e-mail and gives the slot back together, and only for an account still being deleted |
| Admission.DeletionGivesBack | apps/worker/src/accounts/lifecycle/cleanup.ts:67-100 | on a consistent store a finished deletion always finds the counter positive, so its optional last effect is never skipped |
| Admission.ReserveAdmissionSlot | apps/worker/src/storage/admission.ts:31-76 | the answer of a reservation and the tables it leaves |
| Admission.ReleaseAdmissionSlot | apps/worker/src/storage/admission.ts:93-138 | the answer of a release and the tables it leaves |
| Admission.RunKeepsCount | apps/worker/src/storage/admission.ts:31-138 | over every run of reserving, releasing, converting and finishing deletions the counter is the number of open reservations and living accounts, within the cap, one per e-mail |
| Time.ColumnsRoundTrip | apps/worker/src/publishing/publish.ts:137-173 | writing a time value to its columns and reading it back gives the same value |
| Changes.ClassifyPublicationChange | packages/contracts/src/publishing.ts:92-145 | which event, schedule and public counters a publication moves |
| Changes.ByKeyFinds | packages/contracts/src/publishing.ts:92-110 | looking a milestone up by its key finds exactly that milestone |
| Changes.NodeChangesAt | packages/contracts/src/publishing.ts:110-145 | every milestone's change is recorded under its own key |
| Changes.AlarmEligibleIs | packages/contracts/src/publishing.ts:81-89 | an alarm needs a standing event and a stated or derived instant |
| FactStore.EveryWriteHitsOneRow | apps/worker/src/publishing/publish.ts:577-857 | chained writes to different rows that all apply beforehand each hit exactly one row |
| FactStore.FoldAt | apps/worker/src/publishing/publish.ts:577-857 | a row written once holds that write's value after the chain |
| FactStore.FoldElsewhere | apps/worker/src/publishing/publish.ts:577-857 | a row no write names is untouched |
| Publishing.PlanEventNodes | apps/worker/src/publishing/publish.ts:360-383 | proposed milestones first, then every stored milestone the candidate does not mention |
| Publishing.PlanItem | apps/worker/src/publishing/publish.ts:332-418 | one proposed event: refused, unchanged, locked, or planned from what was read |
| Publishing.PlanAllItems | apps/worker/src/publishing/publish.ts:331-418 | events are planned in order and the first one that stops the call decides it |
| Publishing.AppendEventEffects | apps/worker/src/publishing/publish.ts:577-857 | the chained writes of one event |
| Publishing.PlanAllWrites | apps/worker/src/publishing/publish.ts:427-480 | the writes of all changed events, then the rebuild signal |
| Publishing.PublishCandidate | apps/worker/src/publishing/publish.ts:277-575 | the whole call: its outcome and the database it leaves |
| PublishingPlans.PlanNodesShape | apps/worker/src/publishing/publish.ts:360-383 | a plan covers every stored and proposed milestone once, each with the row that was read |
| PublishingPlans.PlanEventShape | apps/worker/src/publishing/publish.ts:384-417 | the planned counters are decided from the planned facts and the rows that were read |
| PublishingPlans.WritesDistinct | apps/worker/src/publishing/publish.ts:427-480 | a whole plan never writes a row twice |
| PublishingRuns.CommitInstalls | apps/worker/src/publishing/publish.ts:560-575 | a holding guard installs every write; a missed one changes nothing |
| PublishingRuns.ReadingIsCurrent | apps/worker/src/publishing/publish.ts:209-227 | no ABA: a matching event revision means event and milestone rows are the ones read, though read at different times |
| PublishingRuns.PublishIsSerializable | apps/worker/src/publishing/publish.ts:331-575 | a call either changes nothing or commits against exactly the rows it planned from |
| PublishingRuns.RunIsOrdered | apps/worker/src/publishing/publish.ts:277-857 | the invariant holds in every reachable state and every earlier state is related to every later one |
| PublishingRuns.PublicRevisionDeterminesContent | packages/contracts/src/publishing.ts:92-145 | equal public revisions show the same event type, status, title, summary, link, node type, title and time; the projection is always there at that revision |
| PublishingRuns.EventRevisionDeterminesFacts | apps/worker/src/publishing/publish.ts:577-647 | the event revision fixes the event row, its milestones and all their rows |
| PublishingRuns.ScheduleRevisionDeterminesReminders | packages/contracts/src/publishing.ts:110-145 | the schedule revision fixes every clock, type and alarm eligibility |
| PublishingRuns.SequenceRisesWithContent | packages/contracts/src/personal-calendar.ts:114-132 | a feed's SEQUENCE (section 3.8.7.4 of RFC 5545) strictly rises when content changes and the view revision does not fall |
| PublishingRuns.PublishesAtMostOnce | apps/worker/src/publishing/publish.ts:560-575 | a published candidate is never published again, whatever ran in between |
| PublishingOutcomes.PublishedFactsAreStored | apps/worker/src/publishing/publish.ts:331-575 | after a publication the store shows every proposed event and milestone as proposed |
| PublishingOutcomes.OmittedMilestonesAreKept | apps/worker/src/publishing/publish.ts:379-383 | a milestone the candidate does not mention keeps all its facts |
| PublishingOutcomes.LocksAreRespected | apps/worker/src/publishing/publish.ts:399-401 | an automatic publication leaves every row of an event with a lock as it is |
| PublishingOutcomes.PublicRevisionMovesExactly | apps/worker/src/publishing/publish.ts:648-717 | the public revision rises by one exactly when the visible facts change |
| PublishingOutcomes.NoticeIsExact | apps/worker/src/publishing/publish.ts:717-824 | the notice lists exactly the milestones whose reminders changed |
| PublishingOutcomes.HistoryRecordIsTrue | apps/worker/src/publishing/publish.ts:175-183 | the recorded kind of change agrees with what changed |
| PublishingOutcomes.PublishingHappens | apps/worker/src/publishing/publish.ts:277-575 | runs in which a candidate is published exist |
| PublishingDecision.PublishedExactly | apps/worker/src/publishing/publish.ts:277-575 | a candidate is published exactly when it passed review, each event may be written by this caller, the store is still what was read, and it does not say all of it already |
| PublishingDecision.AnswersAreExplained | apps/worker/src/publishing/publish.ts:285-422 | what missed, stale, locked, unchanged and a missed condition mean |
| PublishingLocks.HandPublicationsLock | apps/worker/src/publishing/publish.ts:374-391 | a publication by hand locks every event and milestone it proposes; any other leaves each lock as stored and locks nothing new |
| PublishingLocks.LocksAreForever | apps/worker/src/publishing/publish.ts:374-391 | over every run a lock once set stays set |
| PublishingLocks.LockedFactsChangeOnlyByHand | apps/worker/src/publishing/publish.ts:399-401 | over every run no row of an event with a lock changes unless an administrator published in between |
| PublishingLocks.HandMadeFactsStay | apps/worker/src/publishing/publish.ts:374-401 | once a publication by hand went through, no later automatic one of the run touches any row of its events |
| PublishingRecords.RevisionsMoveExactly | apps/worker/src/publishing/publish.ts:577-647 | the event revision rises exactly with news, which is exactly when the row is written; the schedule revision exactly when a reminder changes |
| PublishingRecords.PlaceIsTheArticles | apps/worker/src/publishing/publish.ts:355-359 | a published event always has the article's game and region |
| PublishingRecords.HistoryIsExact | apps/worker/src/publishing/publish.ts:175-183 | the history record names the kind of change, its author and the administrator's reason |
| PublishingRecords.EvidenceIsExact | apps/worker/src/publishing/publish.ts:717-750 | exactly the passages behind the news become evidence, and none is ever removed |
| PublishingRecords.RebuildIsSignalled | apps/worker/src/publishing/publish.ts:437-480 | every publication sets the pending mark and adds its own rebuild request |
| PushTables.RetryDelayGrows | packages/contracts/src/push.ts:373-377 | backoff never shrinks with attempts, is capped, and honours a longer Retry-After |
| PushTables.RetryOnlyAfterRefusal | apps/worker/src/push/outbound.ts:164-194 | a retry is scheduled exactly after a refusal of a notification that still has time; only acceptance accepts, only a lost answer is unknown |
| PushTables.RetryIsTimed | apps/worker/src/push/outbound.ts:164-194 | the status each outcome leaves, and a retry at the longer of the doubled interval and Retry-After, or expiry when that is too late |
| PushTables.WriteBack | apps/worker/src/push/outbound.ts:234-267 | a result write is guarded by status and lease on the message and by status on the delivery |
| PushTables.MaintainPushMessages | apps/worker/src/push/delivery.ts:340-364 | the four statements mean: stale calls become unknown, past messages expire, deliveries with them |
| PushTables.CloseMessage | apps/worker/src/push/delivery.ts:437-454 | closing moves the waiting delivery and the message as it was read |
| PushTables.ProcessedReceipt | apps/worker/src/push/receipts.ts:95-144 | a receipt for a known message turns unknown into accepted on both rows and nothing else; an unknown one changes nothing |
| PushTables.ClaimMessage | apps/worker/src/push/delivery.ts:477-525 | succeeds exactly for a message still as read, inside the day's limit, with a waiting delivery; then message, delivery and counter all move, otherwise at most an empty day counter appears |
| PushTables.SendNextBusinessPush | apps/worker/src/push/delivery.ts:457-600 | one due message is closed, put off, left alone, or claimed, called and settled |
| PushTables.UninterruptedSendSettles | apps/worker/src/push/delivery.ts:457-600 | without interruption no message stays calling, message and delivery agree, and exactly the claim is counted |
| PushTables.SendIsExact | apps/worker/src/push/delivery.ts:457-600 | the exact row an uninterrupted send leaves for each review, budget, binding and outcome; no other message is touched |
| PushTables.LandingMeans | apps/worker/src/push/outbound.ts:234-267 | what a result write does to each message and delivery row |
| PushTables.ClosingMeans | apps/worker/src/push/delivery.ts:437-454 | what closing does to each message and delivery row |
| PushTables.ClaimMeans | apps/worker/src/push/delivery.ts:477-525 | which claims succeed, and the rows they leave |
| PushTables.LostCallBecomesUnknown | apps/worker/src/push/delivery.ts:340-364 | a call that never reports back becomes unknown from two minutes after its claim on, and not earlier |
| PushTables.ExpansionMeans | apps/worker/src/push/delivery.ts:231-300 | an expanded target is a pending, uncalled notification next to a pending delivery; an existing one is left alone |
| PushTables.SupersedeDeliveries | apps/worker/src/mail/occurrences/generate.ts:239-244 | a schedule change supersedes waiting deliveries only |
| PushTables.ClaimDecides | apps/worker/src/push/delivery.ts:477-525 | message, delivery and the day's counter move together or not at all |
| PushTables.StartDecides | apps/worker/src/push/service.ts:520-562 | an activation or test is inserted already calling, and counted, or not at all |
| PushTables.StartDirect | apps/worker/src/push/service.ts:703-735 | a test starts already calling and counted exactly below the day's limit; a used id and a full day change nothing else |
| PushDelivery.StepKeepsInv | apps/worker/src/push/delivery.ts:340-600 | every step keeps the invariant and moves statuses only along their graph |
| PushDelivery.OutcomesAreFinal | apps/worker/src/push/delivery.ts:340-364 | closed messages stay closed; unknown only ever becomes accepted |
| PushDelivery.CalledAgainOnlyAfterRefusal | apps/worker/src/push/outbound.ts:164-194 | a message is called again only if every earlier call ended in retry_later or auth_rejected |
| PushDelivery.ResultIsCurrent | apps/worker/src/push/outbound.ts:234-267 | a result write in flight belongs to the message's latest claim, however late it lands |
| PushDelivery.SyncStep | apps/worker/src/push/delivery.ts:582-597 | an agreeing message and delivery stop agreeing exactly through an overtaken catch write |
| PushDelivery.MessagesAndDeliveriesAgree | apps/worker/src/push/delivery.ts:457-600 | without such a write they agree in every state, unless the delivery was superseded from outside |
| PushDelivery.OvertakenWriteSplitsThem | apps/worker/src/push/delivery.ts:582-597 | a reachable run in which the catch write of an older claim fails the delivery of a newer one |
| PushDelivery.SendCounterIsExact | packages/contracts/src/push.ts:330-332 | the day's counter is the number of claims, within 5000; no ordinary claim takes it above 4500; the critical reserve stays usable |
| PushDelivery.OneRequestPerClaim | apps/worker/src/push/outbound.ts:200-233 | no two requests share a claim and no claim is made twice |
| PushTiming.RetriesWaitTheirTime | packages/contracts/src/push.ts:369-376 | over every run, a second or later call is taken up no earlier than the retry delay after the refusal before it |
| PushTiming.TakenUpExactly | apps/worker/src/push/delivery.ts:464-471 | a pass takes up exactly a waiting notification whose time has come and whose life is not over |
| PushBindings.ActivateReceipt | apps/worker/src/push/receipts.ts:35-91 | each answer says exactly what the stored row was; only a first valid receipt changes it |
| PushBindings.CreateDecides | apps/worker/src/push/service.ts:269-363 | replacing the stale row, inserting the new one and counting it happen together or not at all |
| PushBindings.CreatePushBinding | apps/worker/src/push/service.ts:294-363 | misses exactly without room or the right browser, is rejected exactly on a taken id or endpoint, and otherwise replaces, inserts and counts |
| PushBindings.PausePushBinding | apps/worker/src/push/service.ts:604-635 | pausing is idempotent, refuses only a binding that still sends, and leaves it stopped |
| PushBindings.ResumePushBinding | apps/worker/src/push/service.ts:642-676 | resuming starts a new round inside the pending cap, against the version shown |
| PushBindings.SendActivation | apps/worker/src/push/service.ts:520-562 | one notice is reserved before the deadline, within attempts and cooldown, and its challenge recorded |
| PushBindings.DeletePushBinding | apps/worker/src/push/service.ts:801-820 | only the caller's own row is removed |
| PushBindings.ReRegister | apps/worker/src/push/service.ts:382-422 | registering the same browser again rotates its receipt token and changes neither state nor round |
| PushBindings.RenewLease | apps/worker/src/push/receipts.ts:143-163 | a confirmed receipt and a test renew the lease of an active binding, never shorten it, and touch no other row |
| PushBindings.SweepBindings | apps/worker/src/accounts/reclaim/retention.ts:85-100 | expired leases are paused, then stale rows deleted; no selected binding stays active past its lease, and no active binding within its lease and no live pending one is touched |
| PushBindingRounds.ResumeStartsRound | apps/worker/src/push/service.ts:642-662 | a resume begins a new round whatever the earlier ones used |
| PushBindingRounds.RegistrationStartsRound | apps/worker/src/push/service.ts:294-363 | so does a registration |
| PushBindingRounds.ResumedCanSend | apps/worker/src/push/service.ts:520-562 | from a resumed binding the first notice can go out at once |
| PushBindingRounds.RoundSendsThree | apps/worker/src/push/service.ts:520-562 | with the cooldown observed and before the deadline, the first three notices of a round are granted and every later one refused |
| PushBindingRounds.TooSoonOrTooLate | apps/worker/src/push/service.ts:520-562 | a notice inside the cooldown or from the deadline on is refused |
| PushBindingRounds.SentChallengesActivate | apps/worker/src/push/receipts.ts:35-91 | within a round exactly the challenges it sent activate the binding, until the deadline and under the cap |
| PushBindingRounds.ActivationLasts | apps/worker/src/accounts/reclaim/retention.ts:85-100 | an activation survives every sweep of 180 days and none after them |
| PushBindingRounds.RenewalIsExact | apps/worker/src/push/service.ts:759-798 | an account's renewal sets an active binding's lease to 180 days from now |
| PushBindingRounds.GoneStaysGone | apps/worker/src/push/outbound.ts:258-267 | a binding whose endpoint is gone is never revived by any action |
| PushBindingRuns.CapsAlwaysHold | apps/worker/src/push/service.ts:269-363 | over every run of account actions, receipts, sweeps and registrations with a nondecreasing clock: active, live pending, per-user and per-day caps, unique endpoints, three attempts per round |
| PushBindingRuns.PausingRaisesTotal | apps/worker/src/push/store.ts:111-115 | pausing rows raises the total by exactly the pending ones past their deadline |
| PushBindingRuns.PauseRaisesTotalIff | apps/worker/src/push/service.ts:606-618 | one user pause raises the total exactly when its binding is pending and expired |
| PushBindingRuns.StepTotal | apps/worker/src/push/service.ts:594-662 | only registration under the cap and pausing expired rows raise the total |
| PushBindingRuns.PassesCapIff | apps/worker/src/push/store.ts:111-115 | a step from a total within the cap leaves it above the cap exactly when the expired pending rows it pauses no longer fit |
| PushBindingOverflow.TotalCapIsPassed | apps/worker/src/push/service.ts:594-662 | a reachable run that ends with one binding more than the total cap |
| PushBindingRuns.TotalIsBounded | apps/worker/src/push/store.ts:111-115 | the total is at most its cap plus the expired rows paused so far |
| PushBindingRuns.ResumedNeedsNewChallenge | apps/worker/src/push/service.ts:640-662 | once a binding has been resumed, a challenge that is not sent again never activates it in any later state |
| CalendarNodes.EffectiveCalendarNodes | packages/contracts/src/calendar-nodes.ts:73-97 | the effective nodes of a configuration, in order |
| CalendarNodes.EffectiveIffVisibleOrNeeded | packages/contracts/src/calendar-nodes.ts:54-97 | a node is effective exactly when in scope and base visible or needed by a chosen rule; reminder labels name exactly the matching rules |
| CalendarNodes.ByIdIsDistinct | packages/contracts/src/public-calendar.ts:52-70 | each milestone appears once |
| FeedContents.ByIdIsLatest | packages/contracts/src/public-calendar.ts:52-70 | of several nodes for one milestone the last one counts |
| CalendarPatches.DecisionHolds | packages/contracts/src/public-calendar.ts:138-173 | every patch lasts at least the minimum and the tail after the remembered old time, and shows a known time |
| CalendarPatches.KindTellsTheChange | packages/contracts/src/public-calendar.ts:90-137 | what each patch kind says about the change |
| CalendarPatches.ClockChangesArePatched | packages/contracts/src/public-calendar.ts:90-137 | a new known time of a standing event is always patched, wording alone never |
| PatchDecisions.KindsAreExact | packages/contracts/src/public-calendar.ts:90-137 | each kind of patch exactly under its own condition, and no patch otherwise |
| PatchDecisions.DeletionIsPatched | packages/contracts/src/public-calendar.ts:90-137 | a deleted milestone gets a patch exactly when its time was known |
| PatchDecisions.ShownTimeIsExact | packages/contracts/src/public-calendar.ts:138-173 | the time a patch shows, the new time it records, and whether it reaches beyond the window |
| PatchDecisions.RetentionIsExact | packages/contracts/src/public-calendar.ts:138-173 | a patch ends at the later of ninety days from the change and thirty from the latest old time, which it remembers |
| PatchDecisions.SameFactsKeepThePatch | apps/worker/src/calendar/public/snapshot.ts:355-415 | unchanged facts keep a living patch and drop one that is over |
| PatchDecisions.NewFactsAreShown | apps/worker/src/calendar/public/snapshot.ts:355-415 | other facts are shown from then on, under their own patch or the old one while it lives |
| PatchDecisions.GoneMilestonesStayForTheirPatch | apps/worker/src/calendar/public/snapshot.ts:355-415 | a milestone that disappears stays cancelled, at a time subscribers have seen, exactly while a patch lives |
| CalendarPatches.PatchWasDecided | apps/worker/src/calendar/public/snapshot.ts:355-415 | every patch in a chain of rebuilds was decided at an earlier rebuild |
| CalendarPatches.PatchesOnlyExtend | apps/worker/src/calendar/public/snapshot.ts:355-415 | while a patch is live the next rebuild keeps one, never with lower retention or old-time mark |
| CalendarPatches.PatchesNeverShrink | packages/contracts/src/public-calendar.ts:138-173 | the same over whole runs of rebuilds |
| PersonalFeed.FeedWindowIsWholeDays | packages/contracts/src/personal-calendar.ts:26-40 | instants and dates are cut at the same whole days |
| PersonalFeed.PersonalCalendarNodes | packages/contracts/src/personal-calendar.ts:47-85 | the items of a feed, in the order of their milestone ids |
| PersonalFeed.FeedIsExact | packages/contracts/src/personal-calendar.ts:47-85 | strictly ascending milestone ids, and exactly the nodes that project |
| FeedContents.ShownExactly | packages/contracts/src/personal-calendar.ts:47-85 | on the node's own fields: exactly which nodes are shown, at which time, and which as cancelled |
| FeedContents.FeedShows | packages/contracts/src/personal-calendar.ts:47-85 | a milestone is in the feed exactly when its latest node is wanted and can be shown |
| FeedContents.AlarmsExactly | packages/contracts/src/personal-calendar.ts:66-80 | an item's alarms are exactly the lead times of the chosen rules that fit it |
| PersonalFeed.AlarmsAreHonest | packages/contracts/src/personal-calendar.ts:66-80 | alarms only on standing items with exact times; reminder-only items carry their alarm |
| PersonalFeed.SortIsExact | packages/contracts/src/personal-calendar.ts:82-85 | sorting keeps the items and puts distinct ids in ascending order |
| PersonalFeed.PatchedNodesStayVisible | packages/contracts/src/personal-calendar.ts:53-66 | over every run of rebuilds: once a patch other than a reclassification is there, whatever patch has followed it, the milestone stays in every feed that shows it until that first patch's end |
| PersonalFeed.FreshPatchesLast | packages/contracts/src/public-calendar.ts:138-173 | every patch of a run ends no earlier than the minimum days after the change that made it, and remembers the old time |
| PersonalFeed.FeedNaturalExitAt | packages/contracts/src/personal-calendar.ts:87-106 | the saved exit of an output |
| PersonalFeed.NaturalExitIsAnUpperBound | packages/contracts/src/personal-calendar.ts:87-106 | from its exit on, nothing of an output is shown from its stored node under any configuration |
| FeedContents.NaturalExitIsReached | packages/contracts/src/personal-calendar.ts:87-106 | the exit is the output's own moment, or the end of some item's window or patch |
| PersonalFeed.FeedShrinkBlocked | packages/contracts/src/personal-calendar.ts:182-241 | blocks exactly when a shrink needs evidence and the evidence does not justify it |
| FeedContents.BlockedExactly | packages/contracts/src/personal-calendar.ts:152-241 | in numbers and entries: the guard stops a feed exactly when it would shrink that much and the evidence does not account for it |
| FeedContents.UnexplainedLossBlocks | packages/contracts/src/personal-calendar.ts:182-225 | one lost entry that would still be shown and was not reclassified stops it |
| FeedContents.SmallChangesPass | packages/contracts/src/personal-calendar.ts:152-164 | another view, a small calendar or a small drop is never stopped |
| FeedContents.UnchangedAre | packages/contracts/src/personal-calendar.ts:165-180 | which current nodes count as evidence when the served generation is gone |
| PersonalFeed.CountExplained | packages/contracts/src/personal-calendar.ts:205-226 | stops at the first absent item without evidence |
| PersonalFeed.TimeIsNotBlocked | packages/contracts/src/personal-calendar.ts:182-241 | the passage of time is never blocked while the served generation is there |
| PersonalFeed.TimeIsNotBlockedWithoutHistory | packages/contracts/src/personal-calendar.ts:167-180 | nor when it was reclaimed and every node's content is at least that old |
| PersonalFeed.PassedLossIsExplained | packages/contracts/src/personal-calendar.ts:200-241 | a shrunk output passes only if every recomputed absent entry left by itself or was reclassified, and the rest is small or past its exit |
| PersonalFeed.PartialEvidenceStillBounds | packages/contracts/src/personal-calendar.ts:226-241 | the same bound with partial evidence |
| PersonalFeed.PassingByExitIsSound | packages/contracts/src/personal-calendar.ts:232-241 | when the saved exit lets an output pass, nothing of the saved output is still shown |
| Versions.PlanRequest | apps/worker/src/admin/versions.ts:207-290 | what a confirm or clear request writes, or why it is refused |
| Versions.HandleVersionRequest | apps/worker/src/admin/versions.ts:207-403 | a request's answer and the timetable it leaves |
| Versions.CommitDecides | apps/worker/src/admin/versions.ts:290-330 | a miss leaves at most a blank row; a hit changes the named columns of one row and writes one audit entry |
| Versions.ReadRowIsStored | apps/worker/src/admin/versions.ts:217-222 | the compare-and-set on updated_at means the stored row is the one that was read |
| Versions.WriteKeepsInv | apps/worker/src/admin/versions.ts:116-140 | no write breaks a row that borrowed from the written one |
| Versions.BorrowedEndsNeverGoStale | apps/worker/src/admin/versions.ts:116-140 | in every state an end taken from the next version equals its update start, value and source, and no version ends before it starts |
| Versions.UpdatedAtDeterminesRow | apps/worker/src/admin/versions.ts:356-403 | updated_at never falls per row and determines the row between any two states |
| Versions.StartsComeFromSuggestions | apps/worker/src/admin/versions.ts:257-285 | every confirmed update start is the one its suggestion states |
| Versions.StatedEndsComeFromSuggestions | apps/worker/src/admin/versions.ts:257-285 | every confirmed end that was not borrowed is the one its suggestion states |
| VersionAnswers.AnswersAreTrue | apps/worker/src/admin/versions.ts:207-403 | over every run, success is answered exactly when the request was up to date, sensible and not overtaken; then the row is what was asked for, and otherwise nothing changed |
| VersionAnswers.RefusalsAreExplained | apps/worker/src/admin/versions.ts:207-290 | behind or overtaken is a conflict, senseless is invalid |
| Derivation.ApplyVersionDerivations | apps/worker/src/extraction/versions.ts:205-286 | the derived proposal and the key of the rows it used |
| Derivation.DeriveMilestone | apps/worker/src/extraction/versions.ts:212-278 | one milestone's derivation and the row it looked at |
| Derivation.VersionDerivationIssues | apps/worker/src/extraction/versions.ts:300-333 | the places whose given time is not the derivation |
| Derivation.KeyDeterminesDerivation | apps/worker/src/extraction/versions.ts:164-286 | equal keys under two timetables give equal derived proposals |
| Derivation.KeyIsFaithfulOverRuns | apps/worker/src/admin/review.ts:409-411 | the same for any two moments of any run of confirmations and clearings |
| Derivation.DerivationIsIdempotent | apps/worker/src/extraction/versions.ts:205-286 | deriving again, after reloading the context, changes nothing |
| Derivation.DerivationAddsNoIssues | apps/worker/src/extraction/versions.ts:300-333 | the output has exactly the issues of the already timed milestones |
| DerivedTimes.OnlyUndecidedAreTouched | apps/worker/src/extraction/versions.ts:198-216 | only undecided anchors and yearless dates are touched, and a derived time says so |
| DerivedTimes.UpdateAnchorIsItsDay | packages/contracts/src/version-time.ts:78-105 | an update anchor becomes the day in UTC+8 on which the version's update starts |
| DerivedTimes.EndAnchorIsItsInstant | packages/contracts/src/version-time.ts:78-105 | an end anchor becomes the confirmed instant at which the version ends |
| DerivedTimes.YearlessTakesTheFittingYear | apps/worker/src/extraction/versions.ts:216-245 | a yearless date takes the four-digit year that fits the reference's window |
| DerivedTimes.YearlessMayStayOpen | apps/worker/src/extraction/versions.ts:216-245 | without a reference or a fitting year it stays undecided |
| DerivedTimes.ReferenceIsTheBest | apps/worker/src/extraction/versions.ts:101-120 | a written date, then the version's update start, then publication, then first sight, as dates in UTC+8 |
| DerivedTimes.LoadingLessChangesNothing | apps/worker/src/extraction/versions.ts:160-183 | loading the timetable only when needed changes no derived time and no row it looks at |
| DerivedTimes.KeyIsExact | apps/worker/src/extraction/versions.ts:205-286 | the key names exactly the versions some undecided milestone looks at, each with its row's version |
| DerivedTimes.IssuesAre | apps/worker/src/extraction/versions.ts:300-333 | the places reported are exactly the decided times the derivation would not give |
| YearCompletion.DayNumberIsInjective | packages/contracts/src/year-completion.ts:58-63 | different real dates are different days |
| YearCompletion.CivilOf | packages/contracts/src/schedule-browse.ts:25-27 | the date of a day number, with that day number |
| YearCompletion.AtMostOneYear | packages/contracts/src/year-completion.ts:101-121 | a window shorter than a year admits at most one year, of any number of digits |
| YearCompletion.CompletionIsExact | packages/contracts/src/year-completion.ts:101-139 | a year that fits is found, and with that date, exactly when it has four digits; when none fits there is no answer |
| YearCompletion.CompletionInUse | packages/contracts/src/year-completion.ts:20-40 | with the windows in use, completion succeeds exactly when some four-digit year fits |
| YearCompletion.NothingIsMissedIff | packages/contracts/src/year-completion.ts:101-121 | for a reference from year 0 on: no parsed date misses its fitting year exactly when the reference's window lies in the years 1000 to 9999 |
| YearCompletion.OtherDigitsAreMissed | packages/contracts/src/year-completion.ts:58-63 | a fitting year of five digits and one of three digits that are missed |
| YearCompletion.ReadsBack | packages/contracts/src/year-completion.ts:121-139 | reading the result in UTC+8 gives the written month, day and clock, 29 February included |
| YearCompletion.OrderIsDayOrder | packages/contracts/src/year-completion.ts:82-93 | written order is calendar order |
| YearCompletion.EarliestExplicitDate | packages/contracts/src/year-completion.ts:82-93 | the earliest real date with a four-digit year, or none |
| PublicRead.ReadEvents | apps/worker/src/public/read.ts:167-265 | one page of a generation |
| PublicRead.ScanPage | apps/worker/src/public/read.ts:249-264 | append, measure, and take the last row back when it does not fit |
| PublicRead.PageIsExact | apps/worker/src/public/read.ts:177-265 | a returned page fits, shows exactly the selected rows it consumed, and its cursor resumes right after them |
| PublicRead.PagesShowEverythingOnce | apps/worker/src/public/read.ts:167-265 | following cursors shows every selected row of one generation once, in order, and ends |
| PublicRead.ViewIsFixed | packages/contracts/src/public-api.ts:446-457 | accepted requests of one run read one generation and one window |
| PublicRead.WindowIsWholeDays | packages/contracts/src/public-api.ts:285-303 | instants and dates are cut at the same days |
| PublicRead.ShownIsFilter | packages/contracts/src/public-api.ts:285-303 | the shown rows are the selected rows, in order |
| PublicPages.SelectedExactly | packages/contracts/src/public-api.ts:285-303 | which rows a selection shows: its games, standing, undated or on a day from yesterday to the end of the range |
| PublicPages.AnsweredExactly | apps/worker/src/public/read.ts:167-265 | exactly when a request is answered and when it is refused |
| PublicPages.PageIsFull | apps/worker/src/public/read.ts:177-265 | a page stops only at the end, after a hundred rows, or where the next row is too much, and has a cursor exactly when rows are left |
| SnapshotChunks.PublicSnapshotJsonChunks | packages/contracts/src/public-calendar-batches.ts:3-23 | whole records in order, non-empty chunks within the limit, no split uses fewer; fails exactly when one record is too big |
| SnapshotChunks.BytesAreTrue | packages/contracts/src/public-calendar-batches.ts:5-21 | the running byte count is the length of the encoded chunk |
| SnapshotChunks.GreedyIsOptimal | packages/contracts/src/public-calendar-batches.ts:13-17 | closing a chunk only when the next record does not fit uses the fewest chunks |
| MailBudget.DecisionIsTheGuard | packages/contracts/src/budget/decision.ts:100-228 | the table approves exactly when the ledger is strictly below every threshold |
| MailBudget.DayStaysWithinLimits | packages/contracts/src/budget/pools.ts:56-110 | every pool, the auth total, each user's share and the sum stay within their day limits over any run |
| MailBudget.FloorsAreKept | packages/contracts/src/budget/decision.ts:183-228 | sign-ups, resends and account changes never take the auth total past its floor line, nor lower urgent tiers the urgent pool; first logins and cancellations may |
| MailBudget.AuthRefusalsAreExplained | packages/contracts/src/budget/decision.ts:134-166 | a refusal names what ran out |
| MailBudget.ApprovedExactly | packages/contracts/src/budget/decision.ts:100-166 | in numbers: which mail is approved, and from which pool |
| MailBudget.BusinessRefusalsAreExplained | packages/contracts/src/budget/decision.ts:104-133 | why business mail is refused |
| MailBudget.FullAuthDayIsNamed | packages/contracts/src/budget/decision.ts:134-166 | a used-up auth day is the reason given |
| MailBudget.ReservingTakesOnePlace | packages/contracts/src/budget/decision.ts:168-228 | an approved reservation occupies one place of its pool and of the user's share, a refused one none |
| MailBudget.OnlyReleasingGivesBack | packages/contracts/src/budget/pools.ts:56-110 | settling, doubting and clearing keep a place occupied; only releasing gives one back |

## Left out

- SQL text, identifiers, parameter binding and the D1, Durable Object and Worker interfaces: a statement is a function on rows, a batch is atomic, executor passes are serialized.
- Schema and evidence validation of candidates, `prepareEffects` hooks, time stamps and free-form payloads of publishing: a candidate arrives with its parsed proposal; identities built by hashing are injective.
- Row retention: the stored rows publishing and delivery use are not deleted by other jobs in these runs.
- Encryption, keys, endpoints, payload truncation and HTTP status classification of push: a call ends in one of six outcomes.
- Eligibility of an occurrence, a binding's lease during a business claim and the operational switches: one arbitrary boolean per claim.
- Counters of account changes and of daily test notices: part of the arbitrary boolean of the step they guard.
- PushBindings.SendActivation: leaves the day's send budget to that boolean; the counter itself is `PushTables.StartDirect`.
- PushBindings.ReRegister: says nothing of the two daily counters it raises, for the same reason.
- PushTables.ProcessedReceipt: leaves out the lease renewal of the same request, which is `PushBindings.RenewLease`.
- Publishing.PublishCandidate: has no `prepareEffects` hook, because those statements belong to its callers.
- ICS text, entity tags and the feed's node limits.  Milestone ids are lower-case hexadecimal, so comparing them by locale is comparing characters.
- The shrink ratio is the exact fraction 2/5; rounding of the floating-point comparison is not modelled.  Dates are day numbers, so comparing dates as text is comparing days.
- Regular expressions: raw expressions arrive parsed as a version anchor, a yearless date or other text, never two of them.  Review notes are not modelled.
- Recent changes, notices and evidence of public pages, cursor encoding and JSON sizes: a page's size is an arbitrary function of its content; milestone ids stand for their place in the database's order.
- PublicRead.PagesShowEverythingOnce: says which rows are shown, not how each is rendered, because a patch may end between two pages.
- DerivedTimes.ReferenceIsTheBest: asks for instants from year 0 on, because earlier days have no modelled date.
- PushDelivery.MessagesAndDeliveriesAgree: excludes overtaken catch writes, because with one the statement is false; `PushDelivery.SyncStep` is the exact condition.
- PushBindingRuns.TotalIsBounded: adds the expired rows paused so far, because the plain cap is false of the code.
- Snapshot diffs, schedule browsing, e-mail canonicalization and the parameter tables: they would only add easy members.
