# The live-event core, modelled and proved

Dafny models of the part of the tournament system that keeps one authoritative record while play runs and
things go wrong, with proofs of what that record guarantees. `dafny verify dfyconfig.toml` checks the project.

- `LiveModel.dfy`: contests, results, assignments and the competition graph that the other components share.
- `CourtOutage.dfy`, `CourtOutageProofs.dfy`, `CourtOutageRounding.dfy`: repairing the plan around a closed court or an overrun. The affected
  contests become a small scheduling problem: other contests turn into court closures, and the other contests of
  affected players into pinned tasks on resources of their own. A solution of it merges into a valid plan.
- `CourtOutageHours.dfy`, `CourtOutageComplete.dfy`: moved contests are played within declared hours, and the problem loses
  no acceptable rearrangement.
- `LiveProgression.dfy`, `LiveProgressionProofs.dfy`, `ProgressionResults.dfy`: settled results resolve the entrants of later
  contests, advancing reaches a fixed point, and winners and losers go where the slots say.
- `GraphWalks.dfy`, `NoShow.dfy`, `NoShowRepair.dfy`, `NoShowOptions.dfy`: walks over the competition graph, turning a
  published plan into a record of play, and settling an absent entrant's contests.
- `OperationalSafety.dfy`, `SafetyRules.dfy`: the event-sourced safety record, its replay, authority transfers and restarts,
  and who may do what in it.
- `RateLimiting.dfy`, `WebhookReplay.dfy`: the coordination stores in their map and table forms, and the workers that
  deliver one webhook event under every interleaving.
- `Credentials.dfy`, `CredentialsProofs.dfy`, `CredentialUse.dfy`: the participant credential log, and when its tokens and codes
  let somebody in.
- `JourneyRecord.dfy`, `JourneyProofs.dfy`: the record of one competition through drafts, approval, amendment, play, live
  publications and closing, and what every run of steps keeps.
- `JourneyRules.dfy`: exactly when each step of a record is accepted.
- `JourneySteps.dfy`, `Journey.dfy`: what one step promises of a record that some run has stored, and the class that stores
  such records.
- `JourneyLoading.dfy`, `JourneyProgress.dfy`: exactly which runs store a record that can be loaded again, and when the play
  it stores is fully progressed.
- `Closure.dfy`, `ClosureRules.dfy`, `Views.dfy`, `CivilTime.dfy`, `Pools.dfy`, `Roster.dfy`: closing, the participant and public views, local
  times, pools, and rosters as workbench facts.
- `Common.dfy`: optional values, lists, sorting and text checks.

Code with loops or stored state is a method or a class, proved against a function that says what it computes;
properties are lemmas about those functions. Digests and signatures are the values they are computed from, so
equal digests mean equal contents. Instants are milliseconds.

Some statements one might expect are not true of the code, and the model shows when they fail:

- Verification of the safety record replays from the current authorities, so a state with an authority transfer that
  was not returned does not verify, and such a competition cannot be closed.
- The repair problem rounds instants to whole minutes, and an end that rounds down lets a moved contest start up to half
  a minute inside a closure, or before the players of an overrunning contest have finished. Over all plans that start at
  their origin, all problems the solver accepts and all solutions, moved contests keep out of the closure exactly when its
  end rounds to no earlier minute. Rest is kept from a reported end exactly when that end rounds to no earlier minute or
  comes before the first minute of the plan is over, as no end after the planned end of a contest does. The live guard
  reports a contest inside the closure and blocks its proposal; it reports nothing of the rest.
- A webhook request reads the clock before it claims. The promise that accepted deliveries are a lifetime apart holds for
  the instants at which claims are granted; the instants read are a lifetime less the longest wait between reading and
  claiming apart, and no more. A replaced claimant is fenced, and the two stores answer alike, exactly when that wait is
  under a lifetime. Claims that run in the order of the instants they read keep all three promises whatever they wait.
- The table form of the rate limiter keeps the window that a bucket was opened with, the map form judges by the current
  one, so the two agree on all calls exactly when each key always has the same window.
- A rotation whose command identity is `recovery:` followed by a valid identity can store one token twice.
- The comment on `eventTimeInstant` promises an instant for every time in the event that exists; a local time that
  occurs twice may be refused although its first occurrence is in the event.
- A pool preview counts matches under keys that join two identities with a bar, so with bars in identities it can count
  more added matches than removed ones between placements of one roster.
- A stored record can stop passing the check made when it is loaded. Its clauses on amendments, operations, publications
  and closures hold exactly when an amendment was compiled at most once since it was edited or reopened, every authority is
  back with its first holder, and no closure or overrun was proposed after the live publication in force. Its clause on
  progression fails, once anything has happened, exactly while the play was last stored by a published no-show or a start
  that leaves something to advance, as walkovers that decide a later contest do. What else the check asks is not part of
  this model.

## Model

| member | source | states |
|---|---|---|
| CourtOutageHours.RepairReductionIsSound | apps/compiler-web/src/court-outage-journey.ts:156-263 | a solution of the derived problem merges into a plan that the next repair may start from (one slot a contest, whole minutes, no two contests on one court at once), with every moved contest on a declared court, inside one declared window of it and from the minute the closure starts in to the minute of the finish, the hard rest between every moved contest and all other contests of its players, nothing before the origin if there was nothing, every moved contest after the moved ones it depends on, every unaffected slot unchanged, and (when the end of the closure rounds to no earlier minute) no moved contest in the closure and rest counted from the reported end of an overrun |
| CourtOutageComplete.RepairReductionIsComplete | apps/compiler-web/src/court-outage-journey.ts:156-263 | the other way round: the slots that a solution gives the affected contests are always an acceptable rearrangement (each as long as before, in open hours of a free court that is not closed, rested from what stays and from each other, in order of dependency), and, where what stays is rested among itself and no court is named as a pinned contest, every acceptable rearrangement is the merge of a solution, so the reduction refuses nothing that could be played |
| CourtOutageComplete.RepairDerivedIff | apps/compiler-web/src/court-outage-journey.ts:162-198 | a repair is derived exactly when the schedule model compiles, for a closure inside the plan on a declared court with waiting contests in it, none of them called and all known, and with nothing in progress there but, for an overrun, just the contest it is about |
| CourtOutageHours.LetsExactlyOpenCourts | apps/compiler-web/src/court-outage-journey.ts:199-219 | the problem lets an affected contest be played on a court in some minutes if and only if one declared window holds them, they lie between the minutes of the closure and of the finish, no contest that stays holds the court (an overrunning one until its reported end), and the court is not closed |
| CourtOutageHours.CalendarHoldsIff | apps/compiler-web/src/court-outage-journey.ts:199-203 | a court's calendar in the problem holds minutes if and only if a declared window does and they lie between the minutes of the closure and of the finish |
| CourtOutageComplete.BaselineMergesToNoChange | apps/compiler-web/src/court-outage-journey.ts:220-263 | the baseline is the plan as it stands: merging it back gives that plan, in order, whatever was affected |
| CourtOutageSoundness.RepairKeepsCourtsFree | apps/compiler-web/src/court-outage-journey.ts:156-237 | unaffected contests turned into court closures keep every court free of overlaps after the merge |
| CourtOutageSoundness.RepairKeepsRest | apps/compiler-web/src/court-outage-journey.ts:205-237 | pinned tasks carry the hard rest between a moved contest and each other contest that shares a player |
| CourtOutageSoundness.RepairKeepsRestFromOverrun | apps/compiler-web/src/court-outage-journey.ts:174-186 | when the reported end rounds to no earlier minute, the rest of an overrunning contest's players counts from that end in the whole merged plan, not from the planned one |
| CourtOutageRounding.ReportedEndKeptIff | apps/compiler-web/src/court-outage-journey.ts:174-186 | over all plans from the origin on, all problems the solver accepts and all solutions, that rest is kept if and only if the reported end does not round down to a minute or comes before the first minute of the plan is over; otherwise a plan and an accepted problem are given of which every solution breaks it |
| CourtOutageRounding.OverrunRestKeptIffEndRoundsUp | apps/compiler-web/src/competition-journey.ts:2156-2182 | for a closure that starts at the planned end of a contest, so a minute or more after the origin, it is kept if and only if the reported end does not round down, even among repairs of which the live guard reports nothing on the closed court |
| CourtOutageSoundness.RepairKeepsDependencies | apps/compiler-web/src/court-outage-journey.ts:205-219 | a moved contest starts no earlier than the end of every moved contest it depends on |
| CourtOutageSoundness.RepairKeepsPlanSound | apps/compiler-web/src/court-outage-journey.ts:255-263 | the merged plan is again one that a repair may start from, so repairs compose |
| CourtOutageSoundness.RepairKeepsOrigin | apps/compiler-web/src/court-outage-journey.ts:188-192 | a plan with nothing before its origin has nothing before it after the repair |
| CourtOutageSoundness.RepairMovesOnlyAffected | apps/compiler-web/src/court-outage-journey.ts:255-263 | the merged plan holds the same contests, and every unaffected assignment is unchanged |
| CourtOutageComplete.MergedInOrder | apps/compiler-web/src/court-outage-journey.ts:255-261 | the merged plan is in order of start, then contest |
| CourtOutageSoundness.RepairAvoidsClosure | apps/compiler-web/src/court-outage-journey.ts:188-203 | when the reopening time rounds to no earlier minute, no moved contest overlaps the closed court during the closure |
| CourtOutageRounding.ClosureKeptIffReopeningRoundsUp | apps/compiler-web/src/court-outage-journey.ts:188-203 | over all such plans, problems and solutions, moved contests stay out of the closure, of an outage or an overrun alike, if and only if its end does not round down to a minute; otherwise a plan and an accepted problem are given of which every solution breaks it |
| CourtOutageSoundness.ClosedCourtFindings | apps/compiler-web/src/court-outage-journey.ts:110-116 | the closed-court findings are the contests whose slots overlap the closure, in plan order |
| CourtOutageSoundness.ClosedCourtReportsOnlyStartedContests | apps/compiler-web/src/court-outage-journey.ts:110-116 | after such a repair the guard reports on the closed court exactly the contests already there that are no longer waiting to start |
| CourtOutageSoundness.GuardPassesIffClosureAvoided | apps/compiler-web/src/court-outage-journey.ts:110-116 | however the reopening rounds, the guard has nothing to report on the closed court if and only if every moved contest keeps out of the closure and no contest that stays is scheduled across it |
| OperationalSafety.NormalizeIdempotent | apps/compiler-web/src/operational-safety.ts:143-158 | normalising a normalised command changes nothing, through sorting and deduplication |
| SafetyRules.NormalizesAlikeIff | apps/compiler-web/src/operational-safety.ts:143-158 | two commands normalise alike if and only if they differ at most in the order and repetition of what they list |
| OperationalSafety.ReplayEvents | apps/compiler-web/src/operational-safety.ts:305-318 | the replay loop stops at the first event that does not follow, and otherwise rebuilds the state of the whole log |
| OperationalSafety.ReplayRebuildsEveryRun | apps/compiler-web/src/operational-safety.ts:289-318 | replaying the events of any run from its first authorities rebuilds the run state exactly |
| OperationalSafety.ReplayAcceptsOnlyRuns | apps/compiler-web/src/operational-safety.ts:305-318 | a log that replay accepts is exactly the log of the run that submits its commands in order |
| OperationalSafety.ReplayCharacterisesRuns | apps/compiler-web/src/operational-safety.ts:289-318 | replay accepts precisely the logs that some sequence of submitted commands produces; what such a log can hold is told by the rules of SafetyRules |
| OperationalSafety.VerifyHoldsIffAuthoritiesReturned | apps/compiler-web/src/operational-safety.ts:320-324 | a reachable state verifies if and only if its current authorities are those the run started from, because verification replays from the current ones |
| OperationalSafety.OneTransferIsNotVerified | apps/compiler-web/src/operational-safety.ts:203-212 | from every valid assignment of authorities, handing any function to any other actor is accepted as a first command and reaches a state that does not verify |
| OperationalSafety.TransferWitnessesRejection | apps/compiler-web/src/operational-safety.ts:203-212 | replaying from a different holder of a function fails no later than the first transfer of that function |
| OperationalSafety.AuthorityStaysValid | apps/compiler-web/src/operational-safety.ts:171-173 | authority assignments stay valid text over every run |
| OperationalSafety.CommandIdentitiesAreUnique | apps/compiler-web/src/operational-safety.ts:289-303 | no event of a log repeats the command identity of an earlier one |
| OperationalSafety.ReusedIdentityHasNoEffect | apps/compiler-web/src/operational-safety.ts:289-303 | submitting a used identity again is a repeat for the same normalised command and a conflict for any other, and never changes the state |
| SafetyRules.OnlyLeadsMoveTheMode | apps/compiler-web/src/operational-safety.ts:186-192 | in every log that replay accepts, a stop was submitted by whoever then led safety or the incident, a cancellation, a recovery and a restart from one by who led the incident, a pause by one of the three leads, every other move by who led the competition or the incident |
| SafetyRules.OnlyOpenMoves | apps/compiler-web/src/operational-safety.ts:194-201 | in every such log each move of the mode is one of the open ones, and the mode afterwards is its target |
| SafetyRules.OnlyHoldersAct | apps/compiler-web/src/operational-safety.ts:214-254 | in every such log incidents, clearances and handovers come from the then-holders of the functions that may make them, clearances only during a stop or recovery and on evidence |
| SafetyRules.MoveAcceptedIff | apps/compiler-web/src/operational-safety.ts:222-239 | a new move is accepted if and only if it is current and open, its function may lead it, the public is told what belongs to it, and recovering and restarting follow both clearances |
| SafetyRules.StopIsAccepted | apps/compiler-web/src/operational-safety.ts:186-188 | from every mode but stopped and cancelled, a stop in order is accepted from the safety lead and from the incident lead, and discards the clearances |
| SafetyRules.ClearanceAcceptedIff | apps/compiler-web/src/operational-safety.ts:240-246 | a new clearance is accepted if and only if it comes from its own lead during a stop or a recovery, with a statement and evidence |
| SafetyRules.TransferAcceptedIff | apps/compiler-web/src/operational-safety.ts:247-252 | a new handover is accepted if and only if the holder hands the function to somebody else for a reason and on evidence |
| SafetyRules.IncidentAcceptedIff | apps/compiler-web/src/operational-safety.ts:216-221 | a new incident is accepted if and only if the scribe or incident lead reports it once, in valid texts |
| SafetyRules.AcceptedCommandChanges | apps/compiler-web/src/operational-safety.ts:256-287 | an accepted new command adds its normalised event and changes exactly what it is about |
| SafetyRules.PublicIsInformed | apps/compiler-web/src/operational-safety.ts:256-287 | over every run the public status names the mode that play is in |
| SafetyRestarts.RestartNeedsBothClearances | apps/compiler-web/src/operational-safety.ts:238-281 | every way from STOPPED back to NORMAL passes through RECOVERING, with a safety and a competition clearance recorded after the latest stop by the holders of those functions at the time |
| SafetyRestarts.CancelledIsFinal | apps/compiler-web/src/operational-safety.ts:194-201 | a cancelled competition stays cancelled |
| LiveProgression.ExpectedResolutions | apps/compiler-web/src/live-progression.ts:121-136 | the loop over contest nodes computes the expectations, each node seeing those before it |
| LiveProgression.AdvanceLiveProgression | apps/compiler-web/src/live-progression.ts:138-162 | the loop over the expected entries, in identity order, computes the specified progress or its first error; who advances is told by WinnersAndLosersAdvance |
| ProgressionFixedPoint.AdvanceCharacterised | apps/compiler-web/src/live-progression.ts:138-162 | an advance succeeds exactly when the topology holds, nothing resolved lost its support and every change is allowed, and then makes exactly the needed changes, one event and version each |
| ProgressionFixedPoint.AdvanceReachesFixedPoint | apps/compiler-web/src/live-progression.ts:121-168 | after an advance the recomputed expectations are the same and are what the record holds, a second advance emits nothing, and the record verifies exactly when nothing resolved before was beyond the expectations |
| ProgressionFixedPoint.AdvanceVerifies | apps/compiler-web/src/live-progression.ts:164-168 | when every resolved contest is fixed or needs resolution, what an advance returns verifies |
| ProgressionFixedPoint.AdvanceKeepsReady | apps/compiler-web/src/live-progression.ts:138-162 | whatever an advance resolves is a defined contest, so the conditions under which progression verifies last |
| ProgressionFixedPoint.VerifiesIffNothingToAdvance | apps/compiler-web/src/live-progression.ts:138-168 | a record that meets those conditions verifies if and only if advancing it, at whatever time, changes nothing |
| ProgressionFixedPoint.ContestsHoldWhatTheirSlotsGive | apps/compiler-web/src/live-progression.ts:102-136 | at the fixed point each contest outside the pools holds the sorted pair that its slots resolve to under the results now on record; ContestsHoldWinnersAndLosers says who that is |
| ProgressionResults.WinnersAndLosersAdvance | apps/compiler-web/src/live-progression.ts:97-136 | after an advance, the slot waiting for the winner of a contest is filled by who won it on record (the strictly higher score when completed), the slot waiting for its loser by the other entrant, and a contest with a slot waiting for one that is not over stays open |
| ProgressionResults.ContestsHoldWinnersAndLosers | apps/compiler-web/src/live-progression.ts:102-162 | after an advance each contest outside the pools holds exactly the two entrants that fill its slots, told from statuses, scores and byes alone, and nobody without two of them unless it was fixed |
| ProgressionResults.ResultTellsWhoWon | apps/compiler-web/src/live-progression.ts:27-42 | progression reads a result exactly from a contest that somebody won on record, with its winner, its loser, and its entrants with their own scores |
| ProgressionResults.SlotResolvesIffFilled | apps/compiler-web/src/live-progression.ts:97-112 | a slot resolves to an entrant if and only if that entrant fills it |
| ProgressionResults.AdvanceLeavesCalledContests | apps/compiler-web/src/live-progression.ts:138-162 | an advance changes the entrants only of waiting contests that were not called, to two different ones of those they may have, and nothing else of the record |
| ProgressionResults.GraphWaitsForPools | apps/compiler-web/src/live-progression.ts:51-95 | the graph is built from the pool results in order exactly once every pool contest is won, and not before |
| ProgressionResults.PoolContestsStay | apps/compiler-web/src/live-progression.ts:131 | an advance leaves the entrants of pool contests as they were |
| ProgressionFixedPoint.SameExpectations | apps/compiler-web/src/live-progression.ts:27-42 | expectations depend only on settled results: entrants of contests that have not started do not matter |
| ProgressionFixedPoint.GuardOnlyCutsCycles | apps/compiler-web/src/live-progression.ts:102-112 | a slot resolves to an entrant exactly when following its byes without any guard reaches that entrant; the visited set only cuts endless walks |
| GraphWalks.EntrantWalk.EntrantsForNode | apps/compiler-web/src/no-show-journey.ts:114-124 | the walk over the mutable set of contests being resolved computes the specified entrants and restores the set |
| GraphWalks.WalkFailsIffCycle | apps/compiler-web/src/no-show-journey.ts:114-124 | the walk fails if and only if a cycle can be reached from the contest |
| GraphWalks.WalkCollectsReachable | apps/compiler-web/src/no-show-journey.ts:114-124 | otherwise it returns exactly the entrants that can reach the contest, sorted and once each |
| GraphWalks.AffectedScope | apps/compiler-web/src/no-show-journey.ts:174-187 | the growing set ends, cycles included, with exactly the contests reachable from the direct ones, sorted and once each |
| Activation.CollectDependencies | apps/compiler-web/src/no-show-journey.ts:125-131 | the loop over edges maps each contest to exactly the contests it waits for |
| Activation.ActivationDefinesEveryContest | apps/compiler-web/src/no-show-journey.ts:104-155 | activation fails exactly when a contest has no planned slot or can reach a cycle; otherwise each contest is defined once with its planned court and times, exactly the contests it waits for, exactly the entrants that are listed, can reach it or may qualify for it, sorted and once each, and either its two fixed entrants or the demand to have them resolved |
| Activation.ActivatedRecordProgresses | apps/compiler-web/src/no-show-journey.ts:136-160 | a record activated from a published plan meets the conditions under which progression always verifies, and which runs of live commands keep |
| NoShowRepair.ProposedState | apps/compiler-web/src/no-show-journey.ts:189-210 | declaring, withdrawing and awarding in a loop computes the specified state or the first rejection |
| NoShowRepair.ProposalAcceptedIff | apps/compiler-web/src/no-show-journey.ts:290-304 | a no-show is proposed if and only if somebody named asks for it with a reason, no earlier than the latest event of play, of an entrant whom a two-entrant contest waits for and who is in no contest in progress |
| NoShowRepair.ProposalSettlesExactlyTheWalkovers | apps/compiler-web/src/no-show-journey.ts:290-305 | once the proposal passes its own checks no command is rejected: exactly the waiting contests with the absent entrant become walkovers for the opponent, and nothing else changes |
| NoShowRepair.WalkoversSettle | apps/compiler-web/src/no-show-journey.ts:168-172 | the direct walkovers are exactly the waiting two-entrant contests of the absent entrant, once each |
| NoShowOptions.LiveGuard | apps/compiler-web/src/no-show-journey.ts:212-251 | the guard loops collect the specified findings in sorted order |
| NoShowOptions.GuardPassesIff | apps/compiler-web/src/no-show-journey.ts:212-251 | the guard passes exactly when the record replays, settled truth is untouched, every retained slot is the published one, once, and every dropped slot was a released walkover |
| NoShowOptions.GuardNamesWhatIsWrong | apps/compiler-web/src/no-show-journey.ts:212-251 | the guard's findings name exactly what is wrong: a record that does not replay, each settled or running contest that changed, a contest listed twice, each slot that is not the published one, each slot dropped without a released walkover |
| NoShowOptions.OptionsPassTheGuard | apps/compiler-web/src/no-show-journey.ts:259-288 | KEEP retains every published slot and RELEASE drops exactly those of the settled walkovers; each option passes its guard and verifies independently exactly when the record replays (and the competition guard passes) and the retained slots are of distinct contests |
| NoShowOptions.IndependentReportIsTheSame | apps/compiler-web/src/no-show-journey.ts:327-338 | re-deriving the omissions from the assignments alone reproduces the option's own guard report |
| RateLimiting.InMemoryRateLimitStore.Consume | apps/compiler-web/src/production-pilot-api.ts:70-80 | one request is counted in its bucket, and the answer follows from the bucket |
| RateLimiting.PostgresRateLimitStore.Consume | apps/compiler-web/src/postgres-production-coordination.ts:71-93 | one upsert counts the request in its row, or the call is refused and changes nothing |
| RateLimiting.RetryAfterIsLeast | apps/compiler-web/src/production-pilot-api.ts:70-80 | a request is allowed exactly while its bucket has counted no more than the limit, and the seconds to wait are the fewest whole ones, of at least one, after which the key's next request opens a new bucket |
| RateLimiting.TableRefinesMap | apps/compiler-web/src/postgres-production-coordination.ts:73-92 | call by call, with a constant window for each key, the table form gives the same answer and retry time as the map form |
| RateLimiting.ChangedWindowDiffers | apps/compiler-web/src/postgres-production-coordination.ts:80-86 | for any two different windows, after a first request under one, a request under the other when the shorter ends is judged by the new window in the map form and by the stored one in the table form, so exactly one of them allows it |
| RateLimiting.FormsAgreeIffWindowsAreConstant | apps/compiler-web/src/postgres-production-coordination.ts:71-93 | the two forms answer every list of valid calls alike if and only if no key may be called with two different windows |
| RateLimiting.WindowAdmitsUnderTwiceTheLimit | apps/compiler-web/src/production-pilot-api.ts:70-80 | with a clock that never goes back, no half-open interval of one window admits more than twice the limit less one |
| RateLimiting.TwiceTheLimitLessOneIsReached | apps/compiler-web/src/production-pilot-api.ts:70-80 | for every limit and window that bound is reached |
| WebhookReplay.InMemoryWebhookReplayStore.TryClaim | apps/compiler-web/src/production-pilot-api.ts:86-91 | a claim is granted unless an unexpired one is held, and touches no other event |
| WebhookReplay.InMemoryWebhookReplayStore.Complete | apps/compiler-web/src/production-pilot-api.ts:92-95 | completion succeeds exactly for the claim with this expiry |
| WebhookReplay.InMemoryWebhookReplayStore.Release | apps/compiler-web/src/production-pilot-api.ts:96 | release removes exactly the claim with this expiry |
| WebhookReplay.PostgresWebhookReplayStore.TryClaim | apps/compiler-web/src/postgres-production-coordination.ts:97-109 | the conditional upsert grants the same claims, after the checks on instants and keys |
| WebhookReplay.PostgresWebhookReplayStore.Complete | apps/compiler-web/src/postgres-production-coordination.ts:110-116 | completion needs a pending row with this expiry |
| WebhookReplay.PostgresWebhookReplayStore.Release | apps/compiler-web/src/postgres-production-coordination.ts:117-123 | release deletes only a pending row with this expiry |
| WebhookDelivery.OneUnexpiredClaim | apps/compiler-web/src/production-pilot-api.ts:299-312 | under every interleaving and for both stores, at most one worker keeps an unexpired claim |
| WebhookDelivery.UnexpiredClaimIsSafe | apps/compiler-web/src/production-pilot-api.ts:299-312 | no step of another worker touches an unexpired claim, and its own completion is accepted |
| WebhookDelivery.ReleaseFreesTheEvent | apps/compiler-web/src/production-pilot-api.ts:299-312 | under every interleaving and for both stores, a failed delivery that gives its unexpired claim back leaves the event to whoever claims next |
| WebhookDelivery.AcceptedOncePerLifetime | apps/compiler-web/src/production-pilot-api.ts:299-312 | of two accepted deliveries of one event, one was claimed no earlier than the other's claim expired |
| WebhookDelivery.AcceptedInstantsApart | apps/compiler-web/src/production-pilot-api.ts:280-312 | in every run and for both stores, two accepted deliveries read instants at least a lifetime apart, less the longest wait of an accepted claim since its instant was read |
| WebhookDelivery.ApartByLifetimeLessDelay | apps/compiler-web/src/production-pilot-api.ts:280-312 | over all runs whose claims wait at most so long, accepted deliveries read instants a given gap apart if and only if the gap is no more than a lifetime less that wait; so a whole lifetime is promised exactly when no claim waits |
| WebhookDelivery.LateClaimIsAccepted | apps/compiler-web/src/production-pilot-api.ts:280-312 | for every wait up to a lifetime a run of two accepted deliveries reaches that bound |
| WebhookDelivery.ReplacedClaimantIsFenced | apps/compiler-web/src/postgres-production-coordination.ts:110-123 | in every run whose claims wait less than a lifetime, and for both stores, a claimant that another was granted after can neither complete nor release the newer claim |
| WebhookDelivery.StoresAnswerAlike | apps/compiler-web/src/production-pilot-api.ts:82-98 | a schedule that either store runs with claims that wait less than a lifetime is run by both, with the same answer to every worker |
| WebhookDelivery.FencedIffWithinALifetime | apps/compiler-web/src/postgres-production-coordination.ts:110-123 | over all runs whose claims wait at most so long, replaced claimants are fenced if and only if that wait is under a lifetime |
| WebhookDelivery.AlikeIffWithinALifetime | apps/compiler-web/src/production-pilot-api.ts:82-98 | over all such runs the two stores answer alike if and only if that wait is under a lifetime |
| WebhookDelivery.SharedInstantAnswers | apps/compiler-web/src/postgres-production-coordination.ts:110-116 | two claimants that read one instant, the second granted a lifetime later: the map form accepts both deliveries, the table form only the first |
| WebhookDelivery.InOrderInstantsApart | apps/compiler-web/src/production-pilot-api.ts:280-312 | when claims run in the order of the instants they read, two accepted deliveries read instants at least a lifetime apart, however long they wait |
| WebhookDelivery.InOrderClaimantIsFenced | apps/compiler-web/src/postgres-production-coordination.ts:110-123 | in that order a replaced claimant is fenced, however long claims wait |
| WebhookDelivery.InOrderStoresAnswerAlike | apps/compiler-web/src/production-pilot-api.ts:82-98 | in that order both stores give every worker the same answers, however long claims wait |
| JourneyRuns.ChainHolds | apps/compiler-web/src/competition-journey.ts:1551-1627 | over every run the draft, approval, publication and amendment agree, and superseded revisions increase strictly below the one that stands |
| JourneyRuns.PublishedRevisionsOnlyRise | apps/compiler-web/src/competition-journey.ts:1561-1627 | a published revision is never forgotten: later it still stands, or a strictly higher one does and it is in the history |
| JourneyRuns.OperationalRevisionsAreConsecutive | apps/compiler-web/src/competition-journey.ts:2035-2107 | live publications number consecutively from the published revision, the last is in force, and a closure names the revisions and version it closed |
| JourneyRuns.LivePublicationsGrow | apps/compiler-web/src/competition-journey.ts:2200-2274 | a step keeps the live publications or adds the one right after the operational revision |
| JourneyRuns.ClosedRecordsAreFrozen | apps/compiler-web/src/competition-journey.ts:2276-2318 | once closed, the plan, approval, publications, play, operations and closure never change; only delivery and credentials may |
| JourneyRuns.ClosingNeedsTheFirstAuthorities | apps/compiler-web/src/competition-journey.ts:2297-2300 | a competition is closed only while every operational authority is back with its first holder |
| JourneyRuns.NewClosureVerifies | apps/compiler-web/src/competition-journey.ts:2310-2317 | a stored closure is one that verification accepts from the play it closed, and storing it changes nothing else |
| JourneyLoading.CompilationsCount | apps/compiler-web/src/competition-journey.ts:1256 | over every run, an unpublished draft compiled n times since it was last edited or reopened holds the nth revision after the one it amends, or the nth of all when it amends none |
| JourneyLoading.AmendmentLoadsIffCompiledOnce | apps/compiler-web/src/competition-journey.ts:945-950 | over every run, an amendment passes the load-time check if and only if it was compiled at most once since it was last edited or reopened |
| JourneyLoading.BackedIffNotDisplaced | apps/compiler-web/src/competition-journey.ts:996-1026 | over every run, the record holds the proposal behind its live publication if and only if no closure or overrun was newly proposed since that publication, and the publication is always the next revision, approved by somebody other than the proposer |
| JourneyLoading.OperationsLoadIffAuthoritiesReturned | apps/compiler-web/src/competition-journey.ts:962 | over every run, the log of operations passes the load-time check if and only if every authority is back with its first holder |
| JourneyLoading.LoadsIff | apps/compiler-web/src/competition-journey.ts:945-1032 | over every run, the record passes the load-time clauses on amendments, operations, publications and closures if and only if those three conditions hold |
| JourneyLoading.RecompiledAmendmentDoesNotLoad | apps/compiler-web/src/competition-journey.ts:949 | publishing, amending and compiling twice is a run that reaches a record which does not pass |
| JourneyLoading.SecondClosureDoesNotLoad | apps/compiler-web/src/competition-journey.ts:1008-1015 | publishing a closure and proposing another one is a run that reaches a record which does not pass |
| JourneyLoading.TransferredAuthorityDoesNotLoad | apps/compiler-web/src/competition-journey.ts:962 | handing over any authority once is a run that reaches a record which does not pass |
| JourneyProgress.RunsStayReady | apps/compiler-web/src/competition-journey.ts:1924-1926 | over every run in which the engine resolves no entrants itself, the stored play and every proposed one meet the conditions under which progression verifies |
| JourneyProgress.LiveCommandsProgress | apps/compiler-web/src/competition-journey.ts:1904-1926 | in every such run, an accepted live command that is not a repeat leaves the stored play fully progressed |
| JourneyProgress.PublishedNoShowLoadsIff | apps/compiler-web/src/competition-journey.ts:2035-2107 | in every such run, publishing a no-show stores play that passes the load-time check on progression if and only if advancing the approved option's play, before the call, would add nothing; from verified play, if and only if the settled walkovers leave every expectation as it was |
| JourneyProgress.PlayLoadsIff | apps/compiler-web/src/competition-journey.ts:963-967 | after every such run, told from its steps alone, the stored play passes that check if and only if nothing happened yet, or what stored it was a live command that is no repeat, or a start or a published no-show whose own play leaves nothing to advance; published closures and overruns change nothing |
| JourneyProgress.PublishedNoShowDoesNotLoad | apps/compiler-web/src/competition-journey.ts:2035-2107 | publishing a walkover that decides a later contest is such a run, and its play does not pass although it did before |
| JourneyRules.CallsComeWhilePlayIsOn | apps/compiler-web/src/competition-journey.ts:1909-1911 | over every run, a call or start that changes the stored play comes while operations are normal or degraded |
| JourneyRules.ModeBlocksIff | apps/compiler-web/src/competition-journey.ts:1904-1912 | on an open record at the expected revision, the operational mode refuses a live command if and only if that calls or starts a contest outside normal and degraded operation |
| JourneyRules.LiveCommandAcceptedIff | apps/compiler-web/src/competition-journey.ts:1904-1926 | a live command is accepted if and only if the record is open at the expected revision, calls and starts come while play is on, no entrants are resolved by hand, a decided tie is open, the engine takes it, and play can be progressed |
| JourneyRules.ApproveAcceptedIff | apps/compiler-web/src/competition-journey.ts:1561-1604 | an approval is accepted if and only if it names the compiled revision, the guard passes now with the report it was compiled with, exactly the required codes are acknowledged, and the approver is neither its compiler nor the publisher |
| JourneyRules.DraftStepsAcceptedIff | apps/compiler-web/src/competition-journey.ts:1526-1559 | a draft is edited, or compiled once ready, exactly at its current version and before approval |
| JourneyRules.AmendAcceptedIff | apps/compiler-web/src/competition-journey.ts:1612-1627 | a published revision is reopened exactly by a named requester while nothing is played or closed |
| JourneyRules.ActivateAcceptedIff | apps/compiler-web/src/competition-journey.ts:1882-1902 | play starts, or starts again on the same revision, exactly on the published revision of an open record with valid authorities |
| JourneyRules.OperationalAcceptedIff | apps/compiler-web/src/competition-journey.ts:1977-2014 | an operational command is accepted exactly when the record is open at the expected revision and the log takes it |
| JourneyRules.ProposeNoShowAcceptedIff | apps/compiler-web/src/competition-journey.ts:2016-2033 | a no-show is proposed exactly at the published revision and version of play, before any live publication, when options are found |
| JourneyRules.ApproveNoShowAcceptedIff | apps/compiler-web/src/competition-journey.ts:2035-2107 | an option is published exactly while play is neither stopped nor cancelled, for the pending proposal and the play it started from, with passing guards and an independent approver; or again as before |
| JourneyRules.ProposeChangeAcceptedIff | apps/compiler-web/src/competition-journey.ts:2109-2192 | a closure or overrun is proposed exactly at the revision and version in force, when it fits what is in progress and a repair is found; or again with the same content |
| JourneyRules.ApproveChangeAcceptedIff | apps/compiler-web/src/competition-journey.ts:2200-2274 | it is published on the same terms as an option, for the revision it started from, and only when it can be derived again |
| JourneyRules.CloseAcceptedIff | apps/compiler-web/src/competition-journey.ts:2276-2318 | a competition is closed exactly at the expected revisions and version, by an independent closer, when its logs verify, its guard still passes with the same report, no fact is later than now and its results can be closed; or again as before |
| JourneySteps.ReachedIsSound | apps/compiler-web/src/competition-journey.ts:1551-1627 | every record that some run stores has the revision chain, the chain of live publications, operations that a run of commands makes, and, once closed, the first authorities |
| JourneySteps.StepLasts | apps/compiler-web/src/competition-journey.ts:1561-2318 | through every step no revision on record is forgotten, what stands does not fall, live publications are only added to, and a closed record is frozen |
| Journey.CompetitionJourney.EditDraft | apps/compiler-web/src/competition-journey.ts:1428-1524 | every stored record stays one that a run reaches, nothing that must last is lost, other records are untouched; afterwards nothing is compiled, published or played, and the published revisions stand as they did |
| Journey.CompetitionJourney.Compile | apps/compiler-web/src/competition-journey.ts:1526-1559 | every stored record stays one that a run reaches, nothing that must last is lost, other records are untouched; the compiled revision is above every published one on record, and replaces none of them yet |
| Journey.CompetitionJourney.Approve | apps/compiler-web/src/competition-journey.ts:1561-1604 | every stored record stays one that a run reaches, nothing that must last is lost, other records are untouched; the expected revision is published, approved by somebody who did not compile it, and is the highest on record |
| Journey.CompetitionJourney.Amend | apps/compiler-web/src/competition-journey.ts:1612-1627 | every stored record stays one that a run reaches, nothing that must last is lost, other records are untouched; the draft is open again, holds what it amends, and the expected revision, which stood, still stands |
| Journey.CompetitionJourney.ActivateLive | apps/compiler-web/src/competition-journey.ts:1882-1902 | every stored record stays one that a run reaches, nothing that must last is lost, other records are untouched; play starts from the given record on the published revision, with the first authorities and a log of operations that verifies, and starting it again changes nothing |
| Journey.CompetitionJourney.SubmitLiveCommand | apps/compiler-web/src/competition-journey.ts:1904-1975 | every stored record stays one that a run reaches, nothing that must last is lost, other records are untouched; an accepted live command is stored together with its progression, comes in normal or degraded operation if it calls or starts a contest, and leaves the plan, the publications and the operations alone |
| Journey.CompetitionJourney.SubmitOperationalCommand | apps/compiler-web/src/competition-journey.ts:1977-2014 | every stored record stays one that a run reaches, nothing that must last is lost, other records are untouched; only the operations and what is delivered change, and the log then verifies exactly while every authority is with its first holder |
| Journey.CompetitionJourney.ApproveNoShow | apps/compiler-web/src/competition-journey.ts:2035-2107 | every stored record stays one that a run reaches, nothing that must last is lost, other records are untouched; the revision in force is the one after the published one, made from a proposal that the record still holds and that somebody else made |
| Journey.CompetitionJourney.ApproveResourceChange | apps/compiler-web/src/competition-journey.ts:2200-2274 | every stored record stays one that a run reaches, nothing that must last is lost, other records are untouched; the revision in force is the one after that the proposal started from, made from that proposal and approved by somebody else |
| Journey.CompetitionJourney.CloseCompetition | apps/compiler-web/src/competition-journey.ts:2276-2318 | every stored record stays one that a run reaches, nothing that must last is lost, other records are untouched; the record is closed at the expected revisions and version of play, with every authority back with its first holder |
| Journey.CompetitionJourney.ProposeNoShow | apps/compiler-web/src/competition-journey.ts:2016-2033 | every stored record stays one that a run reaches, nothing that must last is lost, other records are untouched; the proposal is the one asked for with its options, starts from the stored play, before any live publication, and changes neither |
| Journey.CompetitionJourney.ProposeResourceChange | apps/compiler-web/src/competition-journey.ts:2109-2192 | every stored record stays one that a run reaches, nothing that must last is lost, other records are untouched; the pending change is the one asked for and starts from the stored play; a new one replaces every other proposal, and leaves the publication backed exactly when there is none |
| Journey.CompetitionJourney.UseCredentials | apps/compiler-web/src/competition-journey.ts:2411-2619 | every stored record stays one that a run reaches, nothing that must last is lost, other records are untouched; only the credentials change, closed or not: grants and events are added and grants revoked |
| Journey.CompetitionJourney.UpdateDelivery | apps/compiler-web/src/competition-journey.ts:2822-2840 | every stored record stays one that a run reaches, nothing that must last is lost, other records are untouched; only what is delivered changes, closed or not |
| Credentials.VerifyParticipantCredentials | apps/compiler-web/src/competition-journey.ts:887-931 | the loop over the chained events accepts exactly the valid vaults |
| CredentialRuns.CredentialsStayValid | apps/compiler-web/src/competition-journey.ts:2411-2619 | over every run in which no rotation takes the identity of a recovery exchange, the stored credentials pass their check |
| CredentialRuns.CollisionsBreakTheCheck | apps/compiler-web/src/competition-journey.ts:2600-2607 | each identity of the form recovery:<valid identity> that a command may carry has a run whose rotation stores one token twice |
| CredentialRuns.AlwaysValidIffNoneCollides | apps/compiler-web/src/competition-journey.ts:2411-2619 | for any set of identities that rotations may carry, the stored credentials pass their check after every run if and only if no identity in it is both valid and of the form recovery:<valid identity> |
| CredentialRuns.RotationLeavesOneCredential | apps/compiler-web/src/competition-journey.ts:2439-2495 | after a new rotation the participant has exactly one active token, the new one, and no active recovery code; other participants keep theirs |
| CredentialRuns.StepExtends | apps/compiler-web/src/competition-journey.ts:2411-2619 | a step only adds grants and events and revokes grants; what is revoked stays as it is |
| CredentialRuns.RevokedForGood | apps/compiler-web/src/participant-information.ts:199-215 | over every such run, what is revoked at some point never resolves afterwards; when the rest resolves is told by TokenResolvesIff |
| CredentialUse.TokenResolvesIff | apps/compiler-web/src/participant-information.ts:199-215 | over every run without colliding rotations, a token resolves to a grant if and only if that grant of this organisation and competition holds it, is not revoked, expires strictly later, and its signing key is configured |
| CredentialUse.CodeResolvesIff | apps/compiler-web/src/participant-information.ts:247-263 | the same of recovery codes |
| CredentialUse.NewTokenResolvesUntilExpiry | apps/compiler-web/src/competition-journey.ts:2411-2495 | over every such run, a token issued or rotated anew is for the participant and expiry asked for, and resolves from then until that expiry and not after |
| CredentialUse.NewCodeResolvesUntilExpiry | apps/compiler-web/src/competition-journey.ts:2538-2589 | over every such run, a code issued anew resolves from then until its expiry and not after |
| CredentialUse.ExchangeAcceptedIff | apps/compiler-web/src/competition-journey.ts:2591-2619 | a code is exchanged if and only if it resolves, at the revisions in force, for access still to expire and not revoked |
| CredentialUse.ExchangeGivesAccess | apps/compiler-web/src/competition-journey.ts:2591-2619 | an exchanged code leaves its participant a live token that expires when the code said, and changes nothing else |
| CredentialUse.RotationAcceptedIff | apps/compiler-web/src/competition-journey.ts:2439-2495 | a rotation is accepted exactly for a repeat, or for a new command whose token expires later and can be signed |
| CredentialUse.RevocationAcceptedIff | apps/compiler-web/src/competition-journey.ts:2497-2536 | a revocation is accepted exactly for a repeat or a new command |
| CredentialUse.RevocationLeavesNone | apps/compiler-web/src/competition-journey.ts:2497-2536 | a new revocation leaves the participant no live token or code, and leaves everybody else theirs |
| CredentialUse.RecoveryAcceptedIff | apps/compiler-web/src/competition-journey.ts:2538-2589 | a code is issued exactly for a repeat, or for a new command whose code and access both expire later and whose code is new |
| CredentialUse.IssueAcceptedIff | apps/compiler-web/src/competition-journey.ts:2411-2437 | a token is issued on request exactly at the expected revision to somebody of the competition, for a time to come, unless that token was revoked |
| Closure.TerminalResults | apps/compiler-web/src/competition-lifecycle.ts:125-165 | the loop returns every contest's final result in identity order, or nothing when a contest has none |
| Closure.EveryContestSettledOnce | apps/compiler-web/src/competition-lifecycle.ts:125-201 | when the competition can close, each contest is settled once, under the winner that progression used, and completed, walkover and retired contests add up to all |
| Closure.ClosedWinnerIsProgressionWinner | apps/compiler-web/src/competition-lifecycle.ts:139-153 | a contest that closes is one that progression reads a result from, with the same winner, who has the strictly higher score when it was completed |
| Closure.VerifiedIffDerived | apps/compiler-web/src/competition-lifecycle.ts:167-229 | verification accepts exactly the closures that some request derives from the same records |
| ClosureRules.ContestClosesIff | apps/compiler-web/src/competition-lifecycle.ts:125-165 | a contest closes if and only if somebody won it on record, and its result then says what the record says |
| ClosureRules.ClosureDerivedIff | apps/compiler-web/src/competition-lifecycle.ts:167-188 | a closure is derived exactly when record and closer are named, the instant is canonical, the acknowledgements are complete, operations are normal, no dispute is pending and every contest was won on record |
| ClosureRules.ClosureSays | apps/compiler-web/src/competition-lifecycle.ts:189-214 | a closure names who closed what and when, the revisions and version of play, each contest once with its result, in order of identity, how many were completed, walked over and retired, and the evidence in order |
| ClosureRules.ClosedInOrder | apps/compiler-web/src/competition-lifecycle.ts:138-161 | the entrants and scores of a closed contest are listed in the order of identities |
| CivilTime.LocalInstant | apps/compiler-web/src/generic-blueprint-definition.ts:34-44 | with one offset change nearby, the instant shows the requested local time if and only if some instant does, and of two that do it is the one whose offset is that of the local time read as an instant |
| CivilTime.TwoStepsInvert | apps/compiler-web/src/generic-blueprint-definition.ts:34-44 | with one offset change nearby, the two steps find an instant with the requested local time if and only if there is one |
| CivilTime.TwoStepsChoose | apps/compiler-web/src/generic-blueprint-definition.ts:34-44 | of two such instants they find the one whose offset is that of the local time read as an instant |
| CivilTime.EventTimeInstant | apps/compiler-web/src/generic-blueprint-definition.ts:51-64 | the loop over the two dates returns the first usable instant |
| CivilTime.TimesReadBack | apps/compiler-web/src/generic-blueprint-definition.ts:51-52 | a text is read as a time of day exactly when it is how that time is written |
| CivilTime.EventTimeReadsBack | apps/compiler-web/src/generic-blueprint-definition.ts:51-70 | a returned instant is in the event and its clock shows the time on the first or second local date |
| CivilTime.EventTimeAcceptedIff | apps/compiler-web/src/generic-blueprint-definition.ts:51-64 | a time is accepted exactly when on one of the dates the instant it is read as lies in the event, so every skipped time is refused |
| CivilTime.UnambiguousTimeAccepted | apps/compiler-web/src/generic-blueprint-definition.ts:46-50 | a time that occurs once on one of the dates, within the event, is accepted |
| CivilTime.RepeatedTimeMayBeRefused | apps/compiler-web/src/generic-blueprint-definition.ts:46-64 | a time that occurs twice may be refused though its first occurrence is in the event |
| Pools.EvenPoolSizesAreFair | apps/compiler-web/src/generic-blueprint-definition.ts:15-18 | the sizes add up to the entrants, differ by at most one, the larger ones first, exceed no pool, and no fewer pools could hold everyone |
| Pools.PoolMembershipFindings | apps/compiler-web/src/competition-journey.ts:668-685 | the rule loop and the checks collect the specified findings |
| Pools.NoFindingsIffPartition | apps/compiler-web/src/competition-journey.ts:668-685 | a placement has no findings exactly when it names the stage, respects every rule, and places every entrant once in pools of the declared sizes |
| Pools.CollectMeetings | apps/compiler-web/src/competition-journey.ts:1680-1686 | the two nested loops collect exactly the pairs that share a pool |
| Pools.AddedEqualsRemoved | apps/compiler-web/src/competition-journey.ts:1677-1689 | between two complete placements of one roster, without a bar in an identity, a preview counts as many added matches as removed ones |
| Pools.AddedEqualsRemovedIffSameKeys | apps/compiler-web/src/competition-journey.ts:1684-1689 | between any two placements the counts are equal if and only if their matches have equally many distinct keys |
| Pools.AddedEqualsRemovedIffKeysAreOwn | apps/compiler-web/src/competition-journey.ts:1677-1689 | from a placement whose matches all have keys of their own, the counts are equal if and only if the matches of the other placement have keys of their own too |
| Pools.BarsUnbalanceThePreview | apps/compiler-web/src/competition-journey.ts:1684-1689 | four identities with bars and two placements of them for which two matches are counted added and one removed |
| Views.NextIsLeast | apps/compiler-web/src/participant-information.ts:287-328 | next is the least unfinished contest with a slot, in progress first, then by start, then by identity, and is empty exactly for withdrawn or absent participants and those with none |
| Views.NextTells | apps/compiler-web/src/participant-information.ts:295-325 | what a participant is told next is the contest in progress or the earliest to come, with the court, the reporting time ten minutes before its start, the status and the name of the other entrant, as they are on record |
| Views.ViewsAgree | apps/compiler-web/src/participant-information.ts:335-374 | every public entry of that contest shows the same court, start, status and opponent |
| Views.PublicTells | apps/compiler-web/src/participant-information.ts:344-372 | the public screen lists exactly the contests with a slot and the walkovers whose slots were released, each as it is on record, by start and identity |
| Roster.RosterFromWorkbench | apps/compiler-web/src/competition-workbench.ts:506-528 | the loops read the specified roster, or nothing |
| Roster.RosterReadIff | apps/compiler-web/src/competition-workbench.ts:506-528 | facts are read as a roster if and only if they give its size, its order of distinct entrants, and last state the name, division and members of each entrant, and its seed if it has one |
| Roster.RosterRoundTrip | apps/compiler-web/src/competition-workbench.ts:198-205 | turning a roster of distinct slash-free identities into facts and reading it back gives the same entrants in the same order |
| Roster.PathReadsBack | apps/compiler-web/src/competition-workbench.ts:513-517 | a path made for an entrant's field is read as that field of that entrant and no other |
| Roster.FindConflicts | apps/compiler-web/src/competition-workbench.ts:325-341 | the loops list the facts on which a roster source conflicts with the anchor |
| Roster.ConflictsNameWhatDiffers | apps/compiler-web/src/competition-workbench.ts:312-341 | for a source of distinct entrants, the conflicts name exactly the anchor's facts that it does not state alike and its facts that are not known |
| Roster.NoConflictsIffSameRoster | apps/compiler-web/src/competition-workbench.ts:312-341 | a roster source has no conflicts exactly when it lists the identical roster in the same order |

## Left out

- WindowAdmitsUnderTwiceTheLimit: says nothing of a clock that goes back, for which neither form bounds what a window admits.
- OptionsPassTheGuard: whether the record replays is a parameter, because the whole play log is not modelled.
- LiveCommandsProgress: that engine commands other than progression keep the definitions and resolve no entrants is assumed of the outcomes that steps bring along, as is that closing a court leaves contests and ties alone; for no-show proposals it is proved, as NoShowIsEngineProposed shows.
- RepairReductionIsComplete: finds every acceptable rearrangement only where no court is named like a resource that carries a pinned contest, which the source takes for granted.
- RepairReductionIsSound: does not order moved contests against unaffected feeders, because the repair problem keeps only dependencies among affected contests.
- EventTimeAcceptedIff: needs whole-minute offsets that change at most once within a day of the time.
- CredentialsStayValid: keeps grants in the order they were made; the sorting by participant, expiry and hash is not modelled, nor who revoked a grant and why.
- ReplayCharacterisesRuns: an event identity is part of its digest rather than a shortened hash, and findings are sets rather than lists.
- ClosedRecordsAreFrozen: participant and contest revision counters are not part of the record.
- ResultFor: an entrant pair that names one entrant twice is read as its second member where the source finds nobody; resolved pairs are always distinct.
- The solver: its answers are taken to satisfy the hard constraints it checks before releasing a solution (packages/competition-engine/src/schedule-repair.ts:178-215); the search for minimal changes is not modelled, and where a promise fails every solution is shown to break it.
- Standings, qualification, graph building, the competition guard and the replay of the play log are parameters.
- The engine's live commands are modelled only for resolving entrants, declaring a no-show, withdrawing and awarding a walkover; other commands enter the journey as the state the engine returned.
- The court repair's live guard is modelled for closed courts only; recomposing the whole schedule from a repair is left out.
- Alphabetical order is code-unit order rather than the locale's; identities are taken to be unique where the engine checks that they are.
- Commands never reuse an identity that the play log already holds, because the source derives those identities from proof hashes and new proposal identities.
- Before: an instant that is not canonical compares as neither before nor after any other, where the source compares text.
- The claim and completion times that the webhook table also stores, connection failures, and instants whose expiry would pass the last representable date.
- Offline packs, bundles, duplication, schedule controls, automatic pool drawing and structured edits of the workbench: steps that leave the modelled parts of a record as another modelled step does.
- The check a loaded record must pass also covers hashes, rosters, pool membership, schedule controls, the regeneration of a pending repair and the delivery log, which LoadsIff leaves out.
- Signing, persistence, HTTP, timezone data and the reading of YAML, spreadsheets and archives.
