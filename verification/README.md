# Conformance service: verified model

The service assigns flights to evaluators, evaluates telemetry against planned
volumes, and records incidents behind three fences: assignment generation,
lease generation and evaluation revision. This project models its four cores
and proves what they promise together.

| file | models |
|---|---|
| `Ordering`, `Domain` | canonical orders, time, cursors, assignments, observations, incident state |
| `Geometry`, `Hysteresis`, `Evaluator`, `Evaluation` | the evaluator, from polygon and distance up to whole batches |
| `Convexity`, `Conditions` | what the evaluator's answers mean: convex footprints, distances, evidence, conditions by runs |
| `Reader`, `History` | bounded reads with window splitting, keyset pagination |
| `Tables` | the durable tables and the effect of each store transaction |
| `Timeline`, `Evidence`, `Delivery`, `Runs` | inductive invariants and safety over every run |
| `Fencing`, `Leases`, `Commands`, `Acceptance`, `Publishing` | leases, command replay, command acceptance and outbox delivery over every run |
| `Store` | the store as a class that updates its tables in place, proved against `Tables` |
| `Incidents`, `Worker`, `Replay`, `System`, `Guarantees` | workers, telemetry and store as one transition system, and what it guarantees |
| `StableId` | row identities |

The store is a labelled transition system: each transaction is one atomic step
that reads an arbitrary `now`, so no safety result depends on a monotone clock.
`System` adds workers that restore, read, evaluate and commit. Work in progress
is never withdrawn there, so a crash is a worker that takes no further step and
a zombie is one that acts long after it lost its lease.

Assumptions:

- Time is an unbounded integer count of nanoseconds. Columns that the source keeps
  in microseconds (`authority_until`, leases, schedules) are exact here.
- Coordinates, altitudes and deviations are reals. The longitude scale and the
  square root are parameters; only monotonicity of the root is used.
- SHA-256 and JSON encodings are injective, so identities and envelopes are
  records; `StableId` proves the part below the hash.
- Strings are sequences of characters with one total order, in Go and in SQL, and
  limits on their length count characters.
- A frame identity determines its observation.
- Telemetry may become visible at any time, in any order, during and behind reads,
  except that no frame appears behind a durable cursor of its own stream, or behind
  an evaluation whose worker still holds its lease. That is the case
  docs/conformance-design.md:106-111 leaves open; frames of other streams and
  frames after the cursor are unrestricted.
- Rows skipped because another transaction holds them are an arbitrary set.
- Live commits come from workers; every other transaction, reconciliation
  included, is arbitrary.

Where code and comment differ, the code is followed. Comments call the
terminal volume the unique latest one; a tie at Go's zero time escapes the
check (`TerminalOverrunMissesZeroTie`), and `TerminalOverrunExact` says exactly
when the comment is true. The transport only accepts volume windows that start
at or after that time (internal/transport/grpc/assignment_handler.go:205-211),
so the input reaches direct callers of the evaluator only.

## Model

| member | source | states |
|---|---|---|
| `Guarantees.ExactlyOnceReplay` | internal/worker/evaluation.go:183-262 | For every interleaving of claims, crashes, takeovers, deferrals, commits, reconciliations and telemetry that becomes visible late, during and behind reads, as long as none sorts behind a durable cursor of its stream or an evaluation still held under lease: the state stored at a live cursor and the transitions published so far equal one batch from the empty state over all attributed in-authority observations up to that cursor |
| `Guarantees.ShownIsConcluded` | internal/store/postgres/store.go:1083-1093 | In every behaviour the payload published with a live revision carries the condition and state of that one batch over the whole stream up to its cursor; the summary of a generation whose newest revision is published, which includes every current one, is that publication, confirmed |
| `Guarantees.ShownByRuns` | internal/evaluator/evaluator.go:168-188 | The published condition read off the telemetry: non-conforming exactly when over the whole attributed stream some violation's runs leave it open and last breached, else suspicious when a trailing breach run is not yet an incident, else recuperating when an open one is in an inside run, else conforming or unknown by whether the last observation had a comparable volume |
| `Guarantees.EventsAreTheStory` | internal/store/postgres/store.go:1016-1081 | The event rows of a generation without reconciliations are exactly the transitions of that one batch, none missing and none extra |
| `Guarantees.IncidentsAgree` | internal/store/postgres/store.go:1016-1081 | Per violation the transitions alternate opened and resolved with matching opening frames, and an incident row is open if and only if the checkpointed phase is open or recovering with that opening frame |
| `Guarantees.CommitsFailOnlyOnFences` | internal/worker/evaluation.go:221-258 | The reply to any worker's commit is exactly: incomplete if a WAL sequence exceeds 63 bits, lease lost if lease, revision, lifecycle or expiry no longer match, and success otherwise; cursor, validation, incident and index failures cannot happen |
| `Guarantees.NewestCheckpointIsClaimed` | internal/store/postgres/store.go:800-816 | With a query end at or past the watermark, the checkpoint of greatest cursor of a current generation is its newest revision, and no other |
| `Guarantees.UnfencedWorkerSucceeds` | internal/worker/evaluation.go:221-258 | A worker that keeps its lease gets through: whenever its unseen suffix up to an end at or past the watermark evaluates to something storable, restore, evaluate and commit are all enabled and add exactly the next revision with that state and cursor |
| `Guarantees.EvaluationSound` | internal/store/postgres/store.go:922-978 | In every behaviour, every evaluation in a worker's hands has all timestamps inside its claim's authority and before its watermark, names its frames, and lies strictly after the restored cursor |
| `System.ActKeeps` | internal/worker/evaluation.go:183-262 | One step of workers, store or telemetry keeps the system invariant |
| `System.BehavioursKeep` | internal/worker/evaluation.go:183-262 | The system invariant holds in every state of every behaviour |
| `System.CommitReplays` | internal/store/postgres/store.go:829-857 | A successful live commit extends the whole-stream meaning by exactly its own transitions and disturbs no other live revision |
| `System.CommitLedgers` | internal/store/postgres/store.go:993-1095 | After a live commit the incident and event rows of every unreconciled generation still tell its published transitions |
| `System.HistoricalAmends` | internal/store/postgres/store.go:873-920 | A reconciliation changes nothing, or adds one unpublished revision to the superseded target and leaves the incidents and events of every other generation alone |
| `Replay.SuffixCompletesWhole` | internal/worker/evaluation.go:221-252 | Restoring the state at a cursor and evaluating everything after it is one evaluation of the whole stream: same state, same cursor, concatenated transitions, strictly later cursor |
| `Replay.StreamGrows` | internal/worker/evaluation.go:310-340 | The stream up to the new cursor is exactly the stream so far together with everything resumed between the two cursors |
| `Replay.AssessmentResumes` | internal/worker/evaluation.go:227-247 | Evaluating everything unseen before a query end is evaluating everything between the restored cursor and the last observation read, so the query end itself leaves no trace |
| `Replay.MissedAfter` | internal/worker/evaluation.go:310-340 | Frames that a read missed or that arrive later do not change what an evaluation means, as long as they sort after it or belong to another stream |
| `System.LostForGood` | internal/store/postgres/store.go:733-894 | Whatever transaction runs next, a lease that is lost is never held again |
| `Replay.CausalStart` | internal/evaluator/evaluator.go:250-263 | The causal start of a resumed evaluation lies between the start of authority and the watermark |
| `Replay.WholeBounds` | internal/evaluator/evaluator.go:226-263 | Every state and transition timestamp of a whole stream lies between the start of authority and its cursor |
| `Replay.CommitsWhatHasSettled` | internal/worker/evaluation.go:211-220 | What a worker decides to commit stays inside authority and strictly behind its clock less the settle delay, and no evaluable observation older than that sorts after it |
| `Worker.ProcessClaim` | internal/worker/evaluation.go:183-262 | Decides, case by case: nothing to read yet or nothing unseen defers, a checkpoint mismatch, a saturated instant or an evaluation error fails and defers, a missing WAL identity fails outright, and otherwise the evaluation of the whole unseen suffix is committed |
| `Worker.EvaluableSuffix` | internal/worker/evaluation.go:310-327 | From a canonical read, the canonical order of exactly the attributed, in-authority observations after the cursor |
| `Worker.AfterCheckpoint` | internal/worker/evaluation.go:329-340 | True exactly for observations whose cursor is strictly greater than the stored one |
| `Domain.CursorPrecedence` | internal/store/postgres/store.go:1097-1114 | Event time decides before WAL identity, then WAL sequence, then frame |
| `Domain.ObsPrecedence` | internal/evaluator/evaluator.go:267-281 | Event time decides before the agent, then the agent's WAL identity, sequence and frame |
| `Worker.OverlapCoversUnseen` | internal/worker/evaluation.go:227-243 | Reading from the overlap start, capped at the start of authority, finds every unseen observation before the query end |
| `Worker.DecodedIsValid` | internal/evaluator/evaluator.go:74-76 | Every accepted observation of a valid assignment's own stream passes the evaluator's validation of identity, WAL position and coordinates |
| `Worker.ReadsAlwaysEvaluate` | internal/worker/evaluation.go:244-252 | A complete read for a valid assignment never fails evaluation: there is an evaluation exactly when something is unseen |
| `Runs.NextKeeps` | internal/store/postgres/store.go:112-1237 | Every transaction keeps the timeline, evidence, delivery and inbox invariants, and undoes nothing that is recorded |
| `Runs.RunsKeep` | internal/store/postgres/store.go:112-1237 | All invariants hold after every run of transactions from the empty store, with an arbitrary clock at each step |
| `Runs.ExecMonotone` | internal/store/postgres/store.go:993-1095 | Over every run: events, checkpoints, inbox rows and payloads never change, delivery is final, revisions and lease generations never decrease, retired generations stay retired, and their registry rows never grow |
| `Runs.AuthorityTimeline` | internal/store/postgres/store.go:440-483 | After every run: at most one current generation, the candidate highest, every CHECK true, and the authority intervals of one assignment tile one contiguous interval, so each time inside it resolves to exactly the one generation that authorizes it and no time outside does |
| `Runs.CutoverIsABoundary` | internal/store/postgres/store.go:379-383 | An applied cutover moves only the future: earlier event times resolve as before, times from the boundary to the candidate's end resolve to the candidate, later times to nothing |
| `Runs.NoStrandedEvidence` | internal/store/postgres/store.go:450-483 | After every run, with any later cutovers, every timestamp of every checkpoint, summary, event, incident and registry payload, states and transitions included, lies inside its own generation's current half-open authority interval |
| `Runs.RegistryOrder` | internal/store/postgres/store.go:1151-1166 | A leased or delivered registry row has only delivered predecessors in (generation, revision) order, and that order is strictly increasing in event-time cursor, across cutovers too |
| `Runs.RevisionConservation` | internal/store/postgres/store.go:840-913 | Checkpoints carry exactly revisions 1..n with non-decreasing cursors, registry rows exactly a prefix of them and all of them while current, and a resolved incident points at an existing resolution event of that same incident |
| `Runs.PrepareStepKeeps` | internal/store/postgres/store.go:112-245 | Preparing a generation keeps every invariant and changes no recorded evidence |
| `Runs.CandidateStepKeeps` | internal/store/postgres/store.go:309-377 | Arming or cancelling keeps every invariant |
| `Runs.CutoverStepKeeps` | internal/store/postgres/store.go:396-501 | Cutting over keeps every invariant |
| `Runs.CommitStepKeeps` | internal/store/postgres/store.go:829-857 | Any live commit, valid or not, keeps every invariant |
| `Runs.HistoricalStepKeeps` | internal/store/postgres/store.go:873-920 | Any historical commit, valid or not, keeps every invariant |
| `Runs.CommitStores` | internal/store/postgres/store.go:993-1095 | After a successful commit, live or historical, the summary of the written generation is exactly the new revision with the given evaluation confirmed and its checkpoint the given cursor and state, every other summary is as it was, every transition has its event row and the new rows carry the new revision, and the evaluation is queued for the registry exactly when live |
| `Runs.StorableEvidence` | internal/store/postgres/migrations/001_initial.sql:75-135 | Over every run: stored cursors and events name their frames and WAL positions in a form the columns hold, every incident names its opening and has revision 1 exactly while open, and a summary whose revision was published is the publication itself |
| `Runs.CutKeepsEvidence` | internal/store/postgres/store.go:467-476 | A cut strictly after the watermark leaves all evidence of the closed generation inside its shrunken interval |
| `Timeline.TimelineTiles` | internal/store/postgres/store.go:515-529 | On any well-formed timeline a time resolves if and only if it lies between the first authority start and the current end, to the unique authorizing generation |
| `Timeline.NoOverlap` | internal/domain/types.go:127-129 | Two generations of one assignment never authorize the same time |
| `Timeline.PrepareKeeps` | internal/store/postgres/store.go:202-213 | Superseding the waiting candidate and inserting a higher generation keeps the timeline |
| `Timeline.ActivateKeeps` | internal/store/postgres/store.go:480-483 | The first activation of an assignment keeps the timeline |
| `Timeline.CutoverKeeps` | internal/store/postgres/store.go:464-483 | Closing the current interval where the new one opens keeps the timeline, all checks and both uniqueness indexes |
| `Evidence.WriteKeeps` | internal/store/postgres/store.go:993-1095 | Writing one admitted revision keeps revisions, summaries, checkpoints, incidents, events and registry rows consistent, and never alters an event |
| `Evidence.ApplyTransitionsKeep` | internal/store/postgres/store.go:1016-1081 | Any list of transitions the store accepts keeps every incident and event consistent: windows, foreign keys, resolution events, one open incident per violation |
| `Evidence.ValidatedIsAdmitted` | internal/store/postgres/store.go:922-978 | An evaluation that passes both validations has its watermark, causal start, transitions and retained state inside authority and at or before the watermark |
| `Evidence.CursorAdvances` | internal/store/postgres/store.go:997-1003 | A live write is strictly after every stored cursor of its generation, a reconciliation not before any |
| `Evidence.NewestIsRevision` | internal/store/postgres/store.go:997 | The newest checkpoint revision is the row's own revision count |
| `Evidence.EvidenceFrame` | internal/store/postgres/store.go:464-483 | Transactions that write no evidence keep all evidence invariants when no cut falls on evidence |
| `Delivery.ClaimKeepsOrder` | internal/store/postgres/store.go:1147-1188 | Claiming outbox rows keeps every leased or delivered registry row free of undelivered predecessors |
| `Delivery.DeliverKeepsOrder` | internal/store/postgres/store.go:1199-1208 | Marking delivered keeps delivered rows a prefix |
| `Delivery.NewRevisionIsLast` | internal/store/postgres/store.go:1088-1093 | A new live revision comes after every registry row of its assignment |
| `Tables.CompareCursor` | internal/store/postgres/store.go:1097-1114 | Negative, zero or positive exactly as the first cursor is before, equal to or after the second |
| `Fencing.FenceHolds` | internal/store/postgres/store.go:683-770 | A claim that was consumed, taken over or cut over stays fenced through every later transaction, whatever time it reads |
| `Fencing.FencedIsRefused` | internal/store/postgres/store.go:733-770 | Renewal, deferral and both commits refuse a fenced claim and change nothing |
| `Fencing.ConsumptionFences` | internal/store/postgres/store.go:840-894 | A successful commit, historical commit or deferral releases the lease, schedules the next evaluation and fences its lease generation for every worker |
| `Fencing.TakeoverFences` | internal/store/postgres/store.go:687-695 | Claiming a row fences every claim issued for it before |
| `Fencing.CutoverFences` | internal/store/postgres/store.go:477 | An applied cutover fences every claim of the generation it closes |
| `Fencing.RenewalKeepsClaim` | internal/store/postgres/store.go:758-770 | A successful renewal extends the lease and leaves claim and revision as they were |
| `Fencing.FreshClaimHolds` | internal/store/postgres/store.go:683-718 | The claim returned for a chosen row holds that row and is not fenced |
| `Fencing.ConsumedAtMostOnce` | internal/store/postgres/store.go:733-894 | In every run each lease generation is consumed by at most one successful commit, historical commit or deferral, and nothing succeeds with it afterwards, whichever worker presents it |
| `Fencing.DisplacedNeverSucceeds` | internal/store/postgres/store.go:683-894 | In every run a claim displaced by a takeover or a cutover never succeeds again |
| `Leases.LeaseIsExclusive` | internal/store/postgres/store.go:687-695 | In any run whose clocks stay at or before the lease end, renewed or not, the lease's owner and generation stay until the claim itself gives it up or its assignment is cut over |
| `Leases.ClaimSparesLeased` | internal/store/postgres/store.go:687-691 | Claiming leaves every row under a lease that has not ended, not yet due, not current or past its grace exactly as it was |
| `Leases.ClaimTakesFree` | internal/store/postgres/store.go:687-695 | A claimed row was current, due, within grace and free; it is then leased to the worker until now plus the lease under the next generation and otherwise unchanged |
| `Leases.ExpiredIsRefused` | internal/store/postgres/store.go:733-894 | Once its lease has ended by the time read, nothing succeeds with a claim |
| `Leases.StaleRevisionIsRefused` | internal/store/postgres/store.go:733-894 | A claim of another revision neither commits, reconciles nor defers |
| `Leases.PastAuthorityIsRefused` | internal/store/postgres/store.go:733-894 | Past the end of authority and grace a lease is neither renewed nor deferred, and past the end itself it reconciles nothing |
| `Leases.LeaseUseDecided` | internal/store/postgres/store.go:733-770 | Renewal and deferral succeed exactly while the lease is held, unexpired and within grace, and change only their own row's lease end, or owner, lease end and schedule |
| `Acceptance.IdentityIsStable` | internal/store/postgres/store.go:195-201 | Over every run all generations of an assignment keep the same aircraft, flight and intent |
| `Acceptance.PreparationDecided` | internal/store/postgres/store.go:143-245 | A new preparation is stale below a known generation, idempotent for the newest one word for word, applied above all of them with the same identity, and otherwise a conflict |
| `Acceptance.CandidateDecided` | internal/store/postgres/store.go:309-377 | A new arming or cancelling command is answered by the lifecycle and rank of its generation alone, and moves that one row |
| `Acceptance.CutoverDecided` | internal/store/postgres/store.go:396-501 | A new cutover is applied exactly when the candidate is armed, the time is not in the future and inside its window, and the current generation is older, covers the time and has no evidence at or after it |
| `Acceptance.NotificationsMatchCommands` | internal/store/postgres/store.go:621-638 | Over every run exactly the applied commands are notified, each with its own envelope: preparations by a receipt, lifecycle commands by a notice |
| `Commands.ReplayIsStuttering` | internal/store/postgres/store.go:143-193 | Dropping any set of re-sent commands from any run, wherever they occur, leaves the same final store |
| `Commands.DuplicateStutters` | internal/store/postgres/store.go:326-340 | Re-sending an accepted command at any later point changes nothing and answers idempotent or stale |
| `Commands.RememberedStutters` | internal/store/postgres/store.go:418-432 | A remembered command is answered idempotent, or stale exactly when it was stale, with the store unchanged |
| `Commands.AlteredReuseIsRefused` | internal/store/postgres/store.go:143-147 | A different envelope under an accepted message identity, anywhere later in a run, is refused as a conflict and changes nothing |
| `Publishing.DeliveryLeaseUsedOnce` | internal/store/postgres/store.go:1199-1237 | In every run each delivery lease ends in at most one successful delivery or retry |
| `Publishing.DeliveredAtMostOnce` | internal/store/postgres/store.go:1199-1208 | In every run a message is marked delivered at most once, by whatever claims |
| `Publishing.UseSpends` | internal/store/postgres/store.go:1199-1237 | A delivery makes the row final and a retry reschedules it, and both spend the lease |
| `Publishing.HeadExists` | internal/store/postgres/store.go:1151-1166 | Ordering never blocks an assignment for good: below any undelivered registry row there is an undelivered one at the head of the line |
| `Publishing.AttemptsCountLeases` | internal/store/postgres/store.go:1167-1188 | Over every run a message's attempt count is its delivery-lease generation, the number of leases taken on it |
| `Leases.ClaimSparesMessages` | internal/store/postgres/store.go:1151-1166 | Claiming leaves a message alone while another publisher's lease lasts, before its next attempt, once delivered, or for another destination |
| `Leases.ClaimTakesMessage` | internal/store/postgres/store.go:1151-1188 | A claimed message was due, undelivered, free and at the head of its line; it is then leased until now plus the lease with one more attempt and otherwise unchanged |
| `Leases.DeliveryUseDecided` | internal/store/postgres/store.go:1199-1237 | Delivery and retry succeed exactly while the delivery lease is held and unexpired; delivery stamps the row, a retry moves its next attempt, both release it, and no other row changes |
| `Leases.ExpiredDeliveryIsRefused` | internal/store/postgres/store.go:1199-1237 | An ended delivery lease delivers and reschedules nothing |
| `Store.Store.constructor` | internal/store/postgres/store.go:46-65 | A new store is empty and satisfies every invariant |
| `Store.Store.PrepareAssignment` | internal/store/postgres/store.go:112-245 | The tables and reply become exactly those of the preparation transaction, rolled back on refusal, and every invariant is kept |
| `Store.Store.TransitionCandidate` | internal/store/postgres/store.go:309-377 | The tables and reply become exactly those of arming or cancelling, and every invariant is kept |
| `Store.Store.CutoverAssignment` | internal/store/postgres/store.go:396-501 | The tables and reply become exactly those of the cutover transaction, and every invariant is kept |
| `Store.Store.ResolveAssignmentAt` | internal/store/postgres/store.go:515-529 | Fails only for an unsupported time; otherwise returns the unique authorizing generation, or nothing exactly when none authorizes |
| `Domain.SupportedFits` | internal/store/postgres/store.go:556-558 | A supported time fits a signed 64-bit nanosecond count and is never the unset time |
| `Store.Store.LatestGeneration` | internal/store/postgres/store.go:170 | Finds the highest generation of an assignment, or none when it is unknown |
| `Store.Store.SelectDue` | internal/store/postgres/store.go:687-691 | Chooses at most limit unlocked rows, each current, due by now, within grace and under no lease that lasts to now, earliest due first, leaving one behind only for lack of room |
| `Store.Store.ClaimDueAssignments` | internal/store/postgres/store.go:683-718 | Leases exactly chosen rows that were current, due and free, until now plus the lease, leaves every other row as it was, and returns one claim for each that holds it at its revision |
| `Store.Store.RenewAssignmentLease` | internal/store/postgres/store.go:758-770 | The tables and reply become exactly those of the renewal |
| `Store.Store.DeferAssignmentEvaluation` | internal/store/postgres/store.go:733-745 | The tables and reply become exactly those of the deferral |
| `Store.Store.GetReplayCheckpoint` | internal/store/postgres/store.go:800-816 | A checkpoint of greatest cursor at or before the boundary, or nothing exactly when every one is later |
| `Store.Store.RecordTransition` | internal/store/postgres/store.go:1016-1081 | Opens or finds the incident, inserts or confirms the immutable event, and resolves, or reports the conflict |
| `Store.Store.WriteEvaluation` | internal/store/postgres/store.go:993-1095 | Updates checkpoint, summary, incidents, events and outbox in place exactly as one revision does (`Runs.CommitStores` says what each then holds), or reports why not |
| `Store.Store.CommitEvaluation` | internal/store/postgres/store.go:829-857 | The tables and reply become exactly those of the live commit, rolled back on any refusal, and every invariant is kept; `Runs.CommitStores` says what is then stored |
| `Store.Store.CommitHistoricalEvaluation` | internal/store/postgres/store.go:873-920 | The tables and reply become exactly those of the reconciliation, rolled back on any refusal, and every invariant is kept; `Runs.CommitStores` says what is then stored |
| `Store.Store.ClaimOutbox` | internal/store/postgres/store.go:1147-1188 | Leases exactly the chosen head-of-line messages of the destination, which were due, undelivered and free, earliest attempt first, returns a held claim for each, leaves all others as they were, and leaves a claimable one only for lack of room and only for messages due no later |
| `Store.Store.MarkOutboxDelivered` | internal/store/postgres/store.go:1199-1208 | The tables and reply become exactly those of the delivery |
| `Store.Store.RetryOutbox` | internal/store/postgres/store.go:1221-1237 | The tables and reply become exactly those of the retry |
| `Incidents.StreamAlternates` | internal/evaluator/evaluator.go:283-324 | From the empty state, the transitions of any ordered stream of distinct frames alternate per violation, and the frame left open is the open frame of the resulting state |
| `Incidents.ApplyTells` | internal/store/postgres/store.go:1016-1081 | A transition that continues an alternating story is always accepted: no index fires, every resolution finds its opening, and the rows tell the extended story |
| `Incidents.BatchTells` | internal/store/postgres/store.go:1016-1081 | A whole batch that continues the story is accepted and leaves every other generation's rows alone |
| `Incidents.AdvanceTells` | internal/evaluator/evaluator.go:283-324 | A sample reports a transition exactly when it opens or closes an episode, naming the opening frame |
| `Evaluation.EvaluateBatch` | internal/evaluator/evaluator.go:226-248 | The loop computes the fold of single evaluations, failing exactly when some observation is invalid or out of order; `Conditions.BatchCondition` says which condition that is |
| `Evaluation.Evaluate` | internal/evaluator/evaluator.go:70-191 | One observation yields the evaluation of its evidence on the cloned state; `Conditions.SignalMeaning` says what that evidence means |
| `Evaluation.BatchSplit` | internal/evaluator/evaluator.go:226-248 | Evaluating xs and then ys from the resulting state gives the same state, condition and concatenated transitions as evaluating xs + ys, and fails exactly when that fails |
| `Evaluation.ReachableBounds` | internal/evaluator/evaluator.go:226-263 | From a reachable state, after whatever was evaluated before, every timestamp in the resulting state and transitions lies between the causal start and the watermark |
| `Evaluation.ReachableDropsClear` | internal/evaluator/evaluator.go:425-430 | After any batch from the empty state, forgetting a clear entry changes no later transition, condition or causal start |
| `Evaluation.BatchFollowsRuns` | internal/evaluator/evaluator.go:148-188 | Over a whole batch each violation's state and transitions are those of the run-length machine on its known evidence |
| `Evaluation.BatchOpenIffRuns` | internal/evaluator/evaluator.go:283-324 | After a batch a violation is open if and only if some openAfter consecutive breaches were not yet followed by recoverAfter consecutive inside samples |
| `Evaluation.ValidBatchEvaluates` | internal/evaluator/evaluator.go:226-248 | A non-empty, canonically ordered batch of valid observations always evaluates |
| `Conditions.BatchCondition` | internal/evaluator/evaluator.go:168-188 | After a batch from the empty state the condition is non-conforming exactly when some spatial or temporal violation is open by runs and last breached; else suspicious exactly when one without incident ends in a breach run; else recuperating exactly when an open one ends in an inside run; else conforming or unknown by whether a considered volume shares the last observation's altitude reference |
| `Conditions.BatchPhase` | internal/evaluator/evaluator.go:283-324 | After a batch each violation's phase is open, suspected or recovering exactly as the runs of its known samples say |
| `Conditions.SignalMeaning` | internal/evaluator/evaluator.go:83-147 | Lateral, vertical and temporal evidence stand in their own places and read as below |
| `Conditions.SpatialMeaning` | internal/evaluator/evaluator.go:110-147 | No evidence without a volume, no breach inside one single volume, otherwise the excess of a comparable volume of least score, and without a comparable one only lateral evidence: breached exactly outside all, with the least distance |
| `Conditions.TemporalMeaning` | internal/evaluator/evaluator.go:89-104 | A temporal breach exactly outside the effective window or with no active volume; the deviation is the distance in seconds to the window while a volume is active |
| `Evaluation.EarliestCausalTimestamp` | internal/evaluator/evaluator.go:250-263 | The minimum of the fallback and the start times of incidents that are not clear, whatever the map order |
| `Evaluation.EarliestIsLeast` | internal/evaluator/evaluator.go:250-263 | That minimum is a lower bound of all candidates and is one of them |
| `Evaluation.MarkNotEvaluated` | internal/evaluator/evaluator.go:425-430 | Only an absent or clear entry is removed |
| `Evaluation.GatherEvidence` | internal/evaluator/evaluator.go:83-147 | Active and terminal volumes, temporal and spatial evidence of one observation |
| `Evaluation.ConditionOf` | internal/evaluator/evaluator.go:168-188 | The loop over the map, in any order, finds the condition of the state; `Conditions.BatchCondition` says which one after a batch |
| `Hysteresis.EpisodeIffRuns` | internal/evaluator/evaluator.go:283-324 | Over any known-evidence trace the machine is in an episode if and only if the run-length specification says so |
| `Hysteresis.EpisodeRecordsOpening` | internal/evaluator/evaluator.go:289-307 | An open episode opened at the frame that completed exactly openAfter breaches since clear, its start is that run's first frame and its worst deviation the episode maximum |
| `Hysteresis.EmittedIffChanged` | internal/evaluator/evaluator.go:283-324 | A transition is emitted exactly when openness by runs changes, with the evidence of the sample that changed it |
| `Hysteresis.CountersAlwaysMatch` | internal/evaluator/evaluator.go:283-324 | Counters and phases measure the runs that end the trace; the inside counter only inside an episode |
| `Hysteresis.AdvanceAlike` | internal/evaluator/evaluator.go:283-324 | States that differ only in a clear entry's bookkeeping react identically |
| `Hysteresis.LastSampleIsRecorded` | internal/evaluator/evaluator.go:283-288 | The last observed time is that of the last known sample |
| `Evaluator.AssessSpatial` | internal/evaluator/evaluator.go:110-147 | The best-score loop with its early break computes the lateral and vertical evidence |
| `Evaluator.SingleVolumeContainment` | internal/evaluator/evaluator.go:93-147 | With any comparable volume, neither lateral nor vertical breach holds if and only if one single volume contains the observation in both |
| `Evaluator.ContainmentIgnoresOrder` | internal/evaluator/evaluator.go:110-147 | That verdict does not depend on the order of the volumes |
| `Conditions.ContainsMeaning` | internal/evaluator/evaluator.go:122-136 | One volume contains the observation exactly when the altitude is known in the volume's reference, the position is inside or within the horizontal tolerance, and some altitude of the band is within the vertical tolerance |
| `Conditions.BestIsLeast` | internal/evaluator/evaluator.go:129-132 | The deciding volume is the first comparable one of least score |
| `Conditions.NearestIsLeast` | internal/evaluator/evaluator.go:118-121 | The fallback lateral distance is attained by a volume and no volume is nearer |
| `Conditions.ScoreMeasuresExcess` | internal/evaluator/evaluator.go:129 | A score is never negative, and zero exactly within both tolerances |
| `Conditions.AltitudeDeviationIsDistance` | internal/evaluator/evaluator.go:381-389 | The altitude deviation is the distance to the altitude band: attained and minimal |
| `Conditions.AbuttingVolumesHandOver` | internal/evaluator/evaluator.go:93-99 | Volumes whose windows abut hand over without gap or overlap |
| `Evaluator.ConsideredVolumes` | internal/evaluator/evaluator.go:93-109 | The compared volumes are the active ones, or with none active the unique latest-ending one once every volume has ended inside authority; the only exception is a last end at Go's zero time that is not harmless |
| `Evaluator.TerminalOverrunVolumes` | internal/evaluator/evaluator.go:397-418 | The loop returns the terminal reference of the scan |
| `Evaluator.TerminalOverrunExact` | internal/evaluator/evaluator.go:391-418 | At every time, the terminal reference is the unique latest-ending volume once it has ended, and nothing otherwise, if and only if the assignment is not in force, the last end is not Go's zero time, or the volumes ending there do no harm: by then the only one comes last in the list or they tie, and the volumes after them tie too or have not all ended |
| `Evaluator.TerminalOverrunMissesZeroTie` | internal/evaluator/evaluator.go:403-412 | A valid assignment with two volumes tied at Go's zero time, one of which is taken as unique |
| `Geometry.PointInPolygon` | internal/evaluator/evaluator.go:336-348 | The loop computes the parity of edge crossings, and no ring below three points contains anything; `Convexity` says what the parity means |
| `Geometry.InsideRotated` | internal/evaluator/evaluator.go:336-348 | Rotating the vertices does not change the answer |
| `Geometry.InsideReversed` | internal/evaluator/evaluator.go:336-348 | Reversing the vertices does not change the answer |
| `Geometry.InsideClosed` | internal/evaluator/evaluator.go:336-348 | Repeating the first vertex to close the ring does not change the answer |
| `Convexity.OutsideBox` | internal/evaluator/evaluator.go:336-348 | For any ring, a point outside the bounding box is never inside |
| `Convexity.ConvexInterior` | internal/evaluator/evaluator.go:336-348 | A point strictly to the left of every edge of a counter-clockwise convex ring is inside |
| `Convexity.ConvexExterior` | internal/evaluator/evaluator.go:336-348 | A point strictly to the right of some edge of such a ring is not inside |
| `Convexity.ClockwiseInterior` | internal/evaluator/evaluator.go:336-348 | The same for clockwise convex rings: the interior is inside |
| `Convexity.ClockwiseExterior` | internal/evaluator/evaluator.go:336-348 | The same for clockwise convex rings: a point beyond some edge is not inside |
| `Conditions.ConvexVolumeContains` | internal/evaluator/evaluator.go:122-136 | A volume with a convex footprint and the observation's altitude reference contains every observation inside the footprint and the altitude tolerance |
| `Conditions.ConvexVolumeExcludes` | internal/evaluator/evaluator.go:122-136 | A volume with a convex footprint never contains an observation beyond an edge and farther than the tolerance |
| `Geometry.DistanceToRing` | internal/evaluator/evaluator.go:350-379 | The loop computes the least edge distance, infinite below two points |
| `Geometry.ProjectionMinimal` | internal/evaluator/evaluator.go:361-374 | The clamped projection is at least as close as every other point of the segment |
| `Geometry.RingDistanceMinimal` | internal/evaluator/evaluator.go:350-379 | The distance is attained on some edge and no point of any edge is nearer |
| `Geometry.RingDistanceClosed` | internal/evaluator/evaluator.go:350-379 | Explicitly closing the ring does not change the distance |
| `Conditions.OffsetAxes` | internal/evaluator/evaluator.go:350-360 | Offsets scale longitude by the longitude scale and latitude by the fixed latitude scale, each on its own axis |
| `Reader.ReadComplete` | internal/worker/evaluation.go:278-308 | Terminates on the shrinking width; for a usable window the first failing instant alone decides, whatever the row limit and splits: success exactly when there is none, with the canonically sorted, frame-deduplicated observations, each carrying a complete row of the window field by field, and the rejections of one unlimited read, saturation when that instant is saturated, and otherwise a missing WAL identity |
| `Reader.ReadPositions` | internal/telemetry/influx/reader.go:142-208 | Refuses exactly with the failure of the first failing chunk of sorted aircraft, and otherwise returns the canonical deduplicated observations, each carrying a complete row of the window and every complete row's frame among them, and the rejections of the window |
| `Reader.DedupInPlace` | internal/worker/evaluation.go:297-307 | Keeps in place the first observation of every frame, in order |
| `Reader.UniqueIds` | internal/telemetry/influx/reader.go:226-242 | The sorted, trimmed, non-blank identities without repetition |
| `Reader.DecodeRows` | internal/telemetry/influx/reader.go:169-180 | Accepted observations carry exactly the complete rows field by field, the others are rejected under their own frames, and it fails exactly on an identified row without WAL identity |
| `Reader.DecodeMeaning` | internal/telemetry/influx/reader.go:244-291 | A row is accepted exactly when it names frame, agent, aircraft, WAL identity and sequence and lies on the globe, lacks WAL identity exactly when only that is missing first, and is rejected otherwise; an accepted observation carries every field of its row, with altitude known exactly when the row has one, above mean sea level, and an out-of-range intent version as 0 |
| `Reader.SplitWindow` | internal/worker/evaluation.go:283-295 | A window is readable if and only if both halves are, and their rows are together its rows |
| `Reader.JoinReads` | internal/worker/evaluation.go:296-307 | Two adjacent reads appended and deduplicated are one read of the union |
| `History.ListConformanceEvents` | internal/store/postgres/history.go:104-158 | Returns exactly the page of the selection: the first rows in descending (time, id) order, with a token when more remain |
| `History.WalkExactlyOnce` | internal/store/postgres/history.go:104-158 | Following tokens with any valid page sizes while rows are inserted returns rows in strictly descending order, never twice, and a finished walk has returned every row selected at its start |
| `History.WalkAnswersExactly` | internal/store/postgres/history.go:104-158 | A walk over an unchanging table returns every event that answers the query's assignment, generation and time filters, once, newest first, and no other |
| `History.WalkFinishes` | internal/store/postgres/history.go:104-158 | On an unchanging table a walk finishes within one page per remaining row |
| `History.HistoryPlanBounds` | internal/store/postgres/history.go:160-177 | Least start and greatest end of the volumes, or nothing when any window is incomplete |
| `History.TokenBindsQuery` | internal/store/postgres/history.go:59-83 | A token is accepted by exactly the queries with the assignment, generation and time filters it was issued for, and resumes strictly after its row |
| `History.Bounds` | internal/store/postgres/history.go:59-83 | Accepts exactly valid filters with no token or a token bound to the query, with the requested page size or 50 and the token's cursor |
| `StableId.HashInput` | internal/store/postgres/store.go:1239-1245 | The loop writes the length-prefixed concatenation of the parts |
| `StableId.PrefixedInjective` | internal/store/postgres/store.go:1239-1245 | Different lists of parts, of any lengths, never share a hash input |
| `StableId.IncidentIdentity` | internal/store/postgres/store.go:1018 | Incident hash inputs determine assignment, generation, violation and opening frame |
| `StableId.EventIdentity` | internal/store/postgres/store.go:1021 | Event hash inputs determine assignment, generation, violation, transition and frame |
| `StableId.MessageIdentity` | internal/store/postgres/store.go:621-638 | Receipt and lifecycle outbox hash inputs determine the command's source and message and never collide |
| `StableId.RegistryIdentity` | internal/store/postgres/store.go:1089 | The colon-joined registry key determines assignment, generation and revision even when the assignment identity holds colons |

## Left out

- Worker.ProcessClaim: renewal runs as separate steps of the system, and this method reads one snapshot of the telemetry (`System.Act` lets a read see any part of it); the log of rejected rows is not kept.
- Store.Store.ClaimOutbox: the order among messages of one attempt time is arbitrary, because it is the order of their hashes.
- Store.Store.ClaimDueAssignments: order among rows due at the same time is arbitrary.
- The audit table of lifecycle transitions, which nothing reads back.
- The `ending` and `completed` lifecycles as targets: no code path enters them.
- Incident severity and details payloads, summary monitoring status, `updated_at` and error-text columns.
- GetAssignment and the read-only summary queries: single-row lookups.
- AssessMonitoring and the polling cadence: no state.
- Database, network and decoding failures, context cancellation, and the 4096-byte page-token cap.
- Floating-point rounding, NaN and infinities; `math.Cos` and `math.Hypot`.
- The gRPC transport, the registry publisher's calls, configuration, migrations and process wiring.
- Reconciling telemetry that becomes visible behind a durable cursor: the design leaves it open.
