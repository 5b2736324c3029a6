# CommCare call handling: a verified model

CommCare is a telephony backend that talks to Asterisk through a few foreign calls and keeps its own
state in PostgreSQL, Redis, Kafka and in memory. This project models its stateful protocol code in Dafny
and proves what that code is for. `dafny verify dfyconfig.toml` checks everything.

What is modelled, and in which files:

- **Inbound queue calls** (`QueueStrategy`, `QueueFairness`, `QueueEngine`, `QueueInvariants`,
  `QueueSafety`, `QueueTheorems`, `QueueCycles`, `QueueCommands`, `QueueSteps`, `QueueStranding`, `QueueWorkflow`).
  A waiting caller is offered to agents, several legs race, one wins, the losers are cancelled, attempts repeat in
  cycles until a bridge, a time-out or a hang-up. `QueueWorkflow` has the service as a class whose handlers update two
  maps and two tables; each method does to the whole state what the state machine in `QueueEngine` says, and the theorems are
  about all runs of that machine. Handlers are atomic; which legs Asterisk can originate, the clock, the
  member directory, the aggregates and the random draw are inputs.
- **SIP trunks** (`TrunkIds`, `TrunkProvisioning`, `RowImage`, `TrunkImage`, `TrunkRuns`, `TrunkRollback`,
  `TrunkRequests`, `TrunkService`, `Trimming`). Trunk operations and the four realtime tables they
  provision in a transaction of its own: when the tables are the exact image of the trunk table, what holds when they
  are not, and that what is stored and written is what was asked for.
- **The extension number allocator** (`ExtensionAllocator`, `AllocatorRuns`, `AllocatorExactness`,
  `ExtensionService`). Any number of calls in any number of processes, each Redis or database command a step of
  its own, commands failing before or after their effect, processes crashing, the clock running.
- **Extension pool counters** (`TenantExtensions`, `TenantCounting`, `TenantRequests`, `TenancyExtensionService`).
  Reserving, assigning, unassigning, unregistering and deleting users, with the per-tenant counters, which are adjusted
  after the rows by writes of their own that a failing operation may not reach.
- **The AMI worker** (`AmiFraming`, `AmiMessage`, `AmiAggregation`, `AmiKeys`, `AmiWorker`). A chunked stream
  framed into messages, messages parsed into fields; call events collected until a second after the last Cdr.
- **Leader election** (`LeaderElection`, `AriConsumerService`). A Redis lease with renewal and release as
  separate compare and write commands, any of which may fail, and processes that crash.
- **Click-to-call** (`Click2Call`, `Click2CallSafety`, `Click2CallSteps`, `Click2CallService`). Effects at most
  once under duplicated and reordered events, and which leg each is for.
- **Smaller pieces**: Kafka retries and dead letters (`KafkaRetry`), the two-key configuration cache
  (`ConfigCache`, `CacheFailures`, `GlobalConfigService`), the WAV writer (`WavFile`).

Where a claim about the code turned out false, the code is kept as it is, a lemma shows the failure, and
the claim is proved under the exact condition:

- Not every call ends: when the last phone of a call stops ringing while its queue is disabled, the caller is hung up
  on and forgotten, but the row goes on ringing nobody and counts against the limit of its queue for good
  (`DisabledQueueHangsUp`, `StrandedForGood`); exactly then (`StrandedIff`).
- A trunk with more than ten million matches repeats an identify id (`IdentifyIdsDistinctIff`).
- The realtime tables are not always the image of the trunk table: a trunk is saved before its rows are
  written, and a validated password of 81 to 128 characters does not fit `ps_auths`
  (`LongPasswordLeavesNoRows`). `CreateImageIff`, `UpdateImageIff` and `DeleteImageIff` say for one operation,
  `RunsKeepImageIff` for all runs, exactly when they are. A sync repairs a trunk without its rows iff the
  password fits and the endpoint id did not change (`SyncRepairsIff`).
- A tenant's counters miss the extensions of a user whose validated name is too long for the `callerid` column
  (`LongNameIsNotCounted`, `AssignExactIff`), and whatever another failure cuts off; by how much they are off,
  and when they are exact, is `RunsAccounted` and `ExactRunIff`.
- Two allocator calls return one number when a lock holder that found the key unset stalls past 60 seconds
  (`StalledHolderDuplicates`), and, without any delay, when the second look of a holder fails while the key is set:
  a failing GET is logged and reads as no key, and the key is SET back (`FailedLooksDuplicate`, `FailedLookIff`).
  Numbers are unique while no SET takes effect on a set key (`NumbersAreUnique`), so when holders are in time and
  no second look fails (`TimelyNumbersAreUnique`); exactly, while every SET is above all numbers given out or
  stored (`UniqueIff`).
- A process shut down or crashing while one of its renewals is between comparison and SET can overwrite the lease
  of another process (`ShutdownLeavesRenewal`, `CrashLeavesRenewal`, `InFlightCanOverwrite`). Renewals and releases
  touch only their own lease when no attempt ends with a renewal in flight (`QuietRunsTouchOwn`). That at most one
  running process is leader holds either way (`AtMostOneLeader`).
- A process that holds the lease can lose its leadership: to the late failure of a renewal of an earlier lock
  (`LateFailureDropsHolder`) or to a failing GET (`FailedGetDropsHolder`).
- A click-to-call without a destination tells of its caller on every answer (`EmptyDestinationTellsAgain`).
- A Kafka listener named NONE re-runs the others on its retries, one with an empty name is never retried
  (`RetryRunsOnlyItsListener`).
- The configuration cache can go stale: the table is written before the cache, and a cache write that fails then
  leaves the old entry. `CutIff` says for one operation and `TrueRunIff` for all runs exactly when reads stay true.
- An empty configuration key would leave a stale cache entry (`EmptyKeyLeavesEntryIff`); request
  validation rejects it (src/modules/global/dto/global-config.dto.ts).

The third time-out branch of a ring attempt, an empty dial set, is unreachable (`DialSetIsFair`) and has
no counterpart in the model.

## Model

| member | source | states |
|---|---|---|
| QueueStrategy.Untried | src/modules/inboundQueues/utils/queue-strategy.util.ts:19-26 | keeps exactly the members not tried yet; distinct members stay distinct |
| QueueStrategy.FindIndex | src/modules/inboundQueues/utils/queue-strategy.util.ts:49-51 | the first position with this id, or -1 iff there is none |
| QueueStrategy.StableSortHead | src/modules/inboundQueues/utils/queue-strategy.util.ts:58-68 | the head of the stable sort is the first member whose key nobody undercuts |
| QueueStrategy.AggregatePickIsFirstMinimum | src/modules/inboundQueues/utils/queue-strategy.util.ts:58-68 | fewest_calls and least_recent dial the first member with the smallest key |
| QueueStrategy.DialSetIsFair | src/modules/inboundQueues/utils/queue-strategy.util.ts:76-109 | for every strategy: somebody eligible is dialled, nobody twice, nobody already tried while an untried member is eligible; ring_all dials all untried members, the others exactly one; only round_robin moves the cursor |
| QueueStrategy.UntriedConcat | src/modules/inboundQueues/utils/queue-strategy.util.ts:19-26 | the members not tried yet keep their order |
| QueueStrategy.AnyCandidateIsPicked | src/modules/inboundQueues/utils/queue-strategy.util.ts:70-74 | random leaves nobody out: some draw picks any member who may be dialled |
| QueueFairness.AggregatesDescribeHistory | src/modules/inboundQueues/repositories/queue-call.repository.ts:65-81 | the row of an agent is its number of answered calls and its latest bridge time, for any history |
| QueueFairness.FewestCallsKeepsSpread | src/modules/inboundQueues/utils/queue-strategy.util.ts:58-68 | over any run the answered-count spread never exceeds the larger of its initial value and 1 |
| QueueFairness.LeastRecentAvoidsRecent | src/modules/inboundQueues/utils/queue-strategy.util.ts:58-68 | with increasing bridge times the pick of least_recent answered none of the last n - 1 calls |
| QueueFairness.LeastRecentRotates | src/modules/inboundQueues/utils/queue-strategy.util.ts:58-68 | any n consecutive picks of least_recent among n members are n distinct members |
| QueueFairness.RoundRobinTurns | src/modules/inboundQueues/utils/queue-strategy.util.ts:41-56 | round_robin serves whole turns, and an unfinished one along a single arc of the list |
| QueueFairness.RoundRobinIsEven | src/modules/inboundQueues/utils/queue-strategy.util.ts:41-56 | two members differ by at most one pick over any run |
| QueueEngine.EligibleMembers | src/modules/calls/services/queue-call-workflow.service.ts:182-204 | eligible are exactly the members with an extension whose agent is on no bridged call |
| QueueWorkflow.QueueCallWorkflowService.ResolveEligibleMembers | src/modules/calls/services/queue-call-workflow.service.ts:182-204 | the filtering loop computes the eligible members in roster order |
| QueueWorkflow.QueueCallWorkflowService.RingMembers | src/modules/calls/services/queue-call-workflow.service.ts:242-280 | the dialling loop records a leg, a channel and an offer for exactly the members whose origination succeeds |
| QueueWorkflow.QueueCallWorkflowService.DialEligible | src/modules/calls/services/queue-call-workflow.service.ts:221-285 | one attempt: fresh cycle when everybody was tried, dial set, cursor, legs, row |
| QueueWorkflow.QueueCallWorkflowService.StartRingAttempt | src/modules/calls/services/queue-call-workflow.service.ts:206-292 | the recursive ring attempts, on the whole state; terminates because the clock advances |
| QueueWorkflow.QueueCallWorkflowService.HandleCallerEnteredQueue | src/modules/calls/services/queue-call-workflow.service.ts:126-180 | admission, refusal when full, time-out when nobody is eligible, hang-up when the queue is disabled |
| QueueWorkflow.QueueCallWorkflowService.HandleChannelStateChange | src/modules/calls/services/queue-call-workflow.service.ts:294-349 | the rivals are cancelled, then the winner and its caller are bridged by one command, the answer and the bridge are logged, both maps and the row updated |
| QueueWorkflow.QueueCallWorkflowService.HandleChannelDestroyed | src/modules/calls/services/queue-call-workflow.service.ts:351-369 | dispatch to the caller or the agent handler |
| QueueWorkflow.QueueCallWorkflowService.HandleCallerChannelDestroyed | src/modules/calls/services/queue-call-workflow.service.ts:371-411 | completion of a bridged call, abandonment with all legs cancelled otherwise |
| QueueWorkflow.QueueCallWorkflowService.HandleAgentChannelDestroyed | src/modules/calls/services/queue-call-workflow.service.ts:413-459 | the leg is struck off and logged; the last one starts the next attempt |
| QueueWorkflow.QueueCallWorkflowService.TimeoutQueueCall | src/modules/calls/services/queue-call-workflow.service.ts:461-476 | time-out row, forgotten caller, event and hang-up |
| QueueInvariants.ConservedAppend | src/modules/calls/services/queue-call-workflow.service.ts:242-349 | offers, refusals, cancellations and answers keep their balance when a handler adds its effects |
| QueueSafety.StartRingKeepsInv | src/modules/calls/services/queue-call-workflow.service.ts:206-292 | any number of nested ring attempts keeps the whole invariant |
| QueueSafety.StrikeKeepsInv | src/modules/calls/services/queue-call-workflow.service.ts:413-440 | losing a ringing leg keeps the whole invariant and offers nobody anew |
| QueueSafety.StepKeepsInv | src/modules/calls/services/queue-call-workflow.service.ts:104-476 | every handler keeps the whole invariant |
| QueueSafety.ReachableStatesSatisfyInv | src/modules/calls/services/queue-call-workflow.service.ts:126-476 | in every state of every run: legs in memory and ringing channels agree, caller entries point to un-ended calls, endedAt iff terminal, attempt orders duplicate-free, every offered channel in exactly one of ringing, declined, cancelled, answered; one answer per call, matching an earlier offer; one terminal event per ended call |
| QueueTheorems.AttemptsAreBounded | src/modules/calls/services/queue-call-workflow.service.ts:206-292 | nested attempts are at most the milliseconds left to wait plus one |
| QueueTheorems.StartRingOutcome | src/modules/calls/services/queue-call-workflow.service.ts:206-292 | ring attempts end with a ringing leg or with the call timed out and its caller forgotten; no other row changes |
| QueueTheorems.AllRingsFailing | src/modules/calls/services/queue-call-workflow.service.ts:242-292 | when no leg can be originated the call ends timed out and no leg is left |
| QueueCycles.DiallingIsFair | src/modules/calls/services/queue-call-workflow.service.ts:213-285 | every attempt dials each member once, and somebody already tried only when all eligible members were tried |
| QueueCycles.DialledTwice | src/modules/calls/services/queue-call-workflow.service.ts:213-285 | between two attempts that dial one member for one call some attempt for it found all eligible members tried |
| QueueCycles.RunsAreTraced | src/modules/calls/services/queue-call-workflow.service.ts:126-459 | in every state of every run the offers in the log are those of the attempts so far, each attempt starting from who was tried by the ones before it |
| QueueCycles.OfferedTwice | src/modules/calls/services/queue-call-workflow.service.ts:213-285 | over every run: whenever a call is offered to one member twice, an attempt for it after the first offer, at the latest the one that makes the second, found every member eligible then already tried |
| QueueTheorems.StepChangesOneRow | src/modules/calls/services/queue-call-workflow.service.ts:126-476 | each handler changes at most one row, in its queue, and only an active or bridged one |
| QueueTheorems.StepIsAbsorbing | src/modules/calls/services/queue-call-workflow.service.ts:294-476 | ended rows never change; a bridged call can only become completed |
| QueueTheorems.EndedCallsStayEnded | src/modules/calls/services/queue-call-workflow.service.ts:294-476 | the same between any two states of a run |
| QueueTheorems.StepKeepsCapacity | src/modules/calls/services/queue-call-workflow.service.ts:150-179 | admission respects the limit and nothing else makes a call wait or ring |
| QueueTheorems.TimesAreRecorded | src/modules/calls/services/queue-call-workflow.service.ts:150-476 | in every state of every run the recorded waiting and talking times are those between the recorded instants, per status |
| QueueTheorems.QueueNeverOverfull | src/modules/calls/services/queue-call-workflow.service.ts:150-179 | under an unchanged non-zero maxCallers a queue never has more calls waiting or ringing |
| QueueCommands.RunsAreCommanded | src/modules/calls/services/queue-call-workflow.service.ts:126-476 | in every state of every run: bridge command, answer and bridge event only come one after the other, for one call, with the channels and the bridge of its row; refused and timed-out callers are hung up on next, callers who enter are answered |
| QueueCommands.BridgedExactlyOnce | src/modules/calls/services/queue-call-workflow.service.ts:294-349 | in every run a call that is or was bridged has exactly one bridge command in the log: it joins its caller, on its own bridge, to the channel of the agent recorded, offered earlier; the answer and one bridge event follow at once |
| QueueCommands.OnlyBridgedAreConnected | src/modules/calls/services/queue-call-workflow.service.ts:294-349 | conversely every bridge command and every bridge event of a run is that of a call bridged, on its own bridge |
| QueueCommands.CallersAreTold | src/modules/calls/services/queue-call-workflow.service.ts:139-180 | in every run the event of a full queue or a time-out is followed by the hang-up of that caller, the entry by the answer of its channel, and nobody else is answered |
| QueueCommands.WaitingCallsEntered | src/modules/calls/services/queue-call-workflow.service.ts:139-180 | whoever waits, rings or is bridged has entered first |
| QueueSteps.EntryIff | src/modules/calls/services/queue-call-workflow.service.ts:126-180 | a caller is admitted iff its queue is enabled for the tenant, it is not known yet, the queue has no limit or room, and some member with an extension is on no bridged call; each refusal has its own row, event and hang-up, on raw conditions |
| QueueSteps.RingUntilLimit | src/modules/calls/services/queue-call-workflow.service.ts:206-292 | attempts go on while the caller has waited less than 1000 milliseconds per second of the limit; the last one times the call out, when the limit is reached or nobody can answer, or makes a phone ring |
| QueueSteps.WholeSeconds | src/modules/calls/services/queue-call-workflow.service.ts:334-337 | recorded durations are whole seconds, rounded down, never negative |
| QueueSteps.AnswerStamps | src/modules/calls/services/queue-call-workflow.service.ts:294-349 | an answer bridges the row now, names who answered, and cancels every rival leg |
| QueueSteps.HangUpStamps | src/modules/calls/services/queue-call-workflow.service.ts:371-411 | a caller who hangs up ends its call now: completed when bridged, else abandoned with every ringing leg cancelled |
| QueueSteps.CauseDecides | src/modules/calls/services/queue-call-workflow.service.ts:413-440 | exactly the leg that ended is struck; causes 17 and 21 are logged as rejected, all others as unavailable |
| QueueSteps.LastLegRingsOn | src/modules/calls/services/queue-call-workflow.service.ts:431-459 | while other legs ring nothing more happens; after the last one attempts go on as for a new caller |
| QueueSteps.StrayEvents | src/modules/calls/services/queue-call-workflow.service.ts:294-369 | events about channels that are neither a known caller nor ringing change no row and log nothing |
| QueueSteps.CursorFollows | src/modules/calls/services/queue-call-workflow.service.ts:224-240 | the cursor of a round-robin queue becomes the member dialled, and nothing else of any queue changes |
| QueueSteps.EligibleConcat | src/modules/calls/services/queue-call-workflow.service.ts:182-204 | eligible members keep the order of the roster |
| QueueSteps.OffersConcat | src/modules/calls/services/queue-call-workflow.service.ts:242-280 | legs are offered in the order of the dial set |
| QueueSteps.PositionsInOrder | src/modules/calls/services/queue-call-workflow.service.ts:478-487 | positions start at one, never exceed the calls in the queue, and follow the order of entry |
| QueueSteps.LeavingMovesUp | src/modules/calls/services/queue-call-workflow.service.ts:478-487 | once a call ahead is answered or ended, a position is exactly one less than before |
| QueueSteps.DisabledQueueHangsUp | src/modules/calls/services/queue-call-workflow.service.ts:449-456 | when the last leg ends and the queue is disabled the caller is hung up on and forgotten, and the row keeps ringing nobody |
| QueueStranding.StrandedForGood | src/modules/calls/services/queue-call-workflow.service.ts:351-459 | such a row is never ended by anything that happens later, and counts against the limit of its queue for good |
| QueueStranding.StrandedIff | src/modules/calls/services/queue-call-workflow.service.ts:413-459 | in any run a call is left like that iff at some point its last ringing leg ended while its queue was disabled |
| TrunkIds.CompactInjective | src/modules/pbx/repositories/pjsip-realtime.repository.ts:64-78 | removing dashes loses nothing of a uuid |
| TrunkIds.ParseDecimal | src/modules/pbx/repositories/pjsip-realtime.repository.ts:74-78 | decimal suffixes are injective: the index can be read back |
| TrunkIds.DerivedIdsFit | src/modules/pbx/repositories/pjsip-realtime.repository.ts:64-78 | endpoint, auth and identify ids have at most 40 characters |
| TrunkIds.EndpointAndAuthIdsInjective | src/modules/pbx/repositories/pjsip-realtime.repository.ts:64-72 | trunks share no derived endpoint id and no auth id |
| TrunkIds.IdentifyIdsInjective | src/modules/pbx/repositories/pjsip-realtime.repository.ts:74-78 | identify ids determine the trunk, and below ten million the index |
| TrunkIds.IdentifyIdCollision | src/modules/pbx/repositories/pjsip-realtime.repository.ts:74-78 | indices 1000000 and 10000000 of one trunk get the same id |
| TrunkIds.IdentifyIdsDistinctIff | src/modules/pbx/repositories/pjsip-realtime.repository.ts:74-78 | the identify ids of a trunk are pairwise distinct iff it has at most ten million matches |
| TrunkService.SipTrunkService.UpsertTrunk | src/modules/pbx/repositories/pjsip-realtime.repository.ts:135-198 | the transaction clears the old and the new endpoint and writes the rows of the trunk, table by table; when it fails, or a value is too wide for its column, all four tables stay as they were; its confirmation may be lost |
| TrunkService.SipTrunkService.SaveIdentifies | src/modules/pbx/repositories/pjsip-realtime.repository.ts:184-196 | one identify row per match, saved one after the other |
| TrunkService.SipTrunkService.DeleteRows | src/modules/pbx/repositories/pjsip-realtime.repository.ts:205-214 | all four kinds of rows of a trunk go |
| TrunkService.SipTrunkService.AssertEndpointIdentityAvailable | src/modules/trunk/services/sip-trunk.service.ts:208-240 | which of the three refusals applies, or none |
| TrunkService.SipTrunkService.CreateTrunk | src/modules/trunk/services/sip-trunk.service.ts:33-62 | every outcome of creating a trunk, on all five tables, among them: stored, rows rolled back, error |
| TrunkService.SipTrunkService.UpdateTrunk | src/modules/trunk/services/sip-trunk.service.ts:72-131 | every outcome of updating a trunk, including change of mode, username and endpoint id, and the trunk saved with its rows rolled back; what is stored and written is `TrunkRequests.UpdateDoesWhatIsAsked` |
| TrunkService.SipTrunkService.EditTrunk | src/modules/trunk/services/sip-trunk.service.ts:80-113 | field by field: a named field takes the value of the request, any other stays, the username is trimmed, address mode has no login |
| TrunkService.SipTrunkService.DeleteTrunk | src/modules/trunk/services/sip-trunk.service.ts:133-140 | rows first, then the trunk, each of which may fail or go unconfirmed |
| TrunkService.SipTrunkService.SyncTrunkAsterisk | src/modules/trunk/services/sip-trunk.service.ts:142-159 | every outcome of a sync, rolled back rows included |
| TrunkImage.RowsUnderExact | src/modules/pbx/repositories/pjsip-realtime.repository.ts:184-196 | with distinct ids row i of a trunk is its match i |
| TrunkImage.ReorderedRows | src/modules/pbx/repositories/pjsip-realtime.repository.ts:184-196 | in whatever order the matches of a trunk are loaded, its identify rows have the same ids and the same matches |
| TrunkImage.UpsertTables | src/modules/pbx/repositories/pjsip-realtime.repository.ts:135-198 | provisioning is: drop the rows under the old and new endpoint, write the image of the trunk |
| TrunkImage.StoreKeepsImage | src/modules/pbx/repositories/pjsip-realtime.repository.ts:135-198 | storing and provisioning a trunk with a free endpoint id leaves the tables the exact image, when the transaction commits |
| TrunkImage.DeleteKeepsImage | src/modules/trunk/services/sip-trunk.service.ts:133-140 | deleting rows and trunk leaves the image of the other trunks, when both deletions go through |
| TrunkRuns.ResolvedIsWellFormed | src/modules/trunk/services/sip-trunk.service.ts:186-206 | a resolved trunk has a trimmed endpoint id of at most 40 characters: its username or the id derived from its uuid |
| TrunkRuns.AvailableIsFree | src/modules/trunk/services/sip-trunk.service.ts:208-240 | an endpoint id that passes the check belongs to no other trunk and to no extension |
| TrunkRuns.OpKeepsColumns | src/modules/pbx/repositories/pjsip-realtime.repository.ts:135-198 | no operation ever stores a value its column is too narrow for, whatever it is given and whichever writes fail |
| TrunkRuns.RolledBackIff | src/modules/trunk/services/sip-trunk.service.ts:161-184 | a trunk saved without its rows leaves the tables exact iff the rows it had are the rows it should have |
| TrunkRuns.CreateImageIff | src/modules/trunk/services/sip-trunk.service.ts:33-62 | a create leaves the tables exact iff it is refused, not stored, or provisioned: stored with confirmation, Asterisk reachable and, for credentials, a password of at most 80 characters |
| TrunkRuns.UpdateImageIff | src/modules/trunk/services/sip-trunk.service.ts:72-131 | an update leaves the tables exact iff it is refused, not saved, provisioned, or changes nothing Asterisk is told |
| TrunkRuns.DeleteImageIff | src/modules/trunk/services/sip-trunk.service.ts:133-140 | a delete leaves the tables exact iff it is refused, fails on the rows, or deletes both: a trunk that outlives its rows breaks them |
| TrunkRuns.SyncChangesNothing | src/modules/trunk/services/sip-trunk.service.ts:142-159 | on exact tables a sync that loads the matches in their order changes nothing, whether or not it goes through |
| TrunkRuns.LongPasswordLeavesNoRows | src/modules/trunk/services/sip-trunk.service.ts:33-62 | a credentials trunk created with a password of 81 to 128 characters is stored and reported as failed, has no rows, and no sync ever gives it any |
| TrunkRuns.SyncRepairsIff | src/modules/trunk/services/sip-trunk.service.ts:142-184 | after a create or update that was saved but not provisioned, a sync that reaches Asterisk makes the tables exact iff the password fits and the endpoint id did not change |
| TrunkRuns.SyncUndoesHalfDelete | src/modules/trunk/services/sip-trunk.service.ts:133-159 | a trunk that outlived its rows gets exactly them back from a sync that reaches Asterisk |
| TrunkRuns.RunsKeepImageIff | src/modules/trunk/services/sip-trunk.service.ts:33-184 | over any run of operations by any tenants with any failures and lost confirmations: the tables are exactly the rows of the trunks and the foreign rows after every operation iff every operation was harmless, a condition checked before the call |
| TrunkRuns.EveryRunKeepsImageIff | src/modules/trunk/services/sip-trunk.service.ts:33-184 | the same from no trunk and any extensions on |
| TrunkRuns.RunsKeepImage | src/modules/trunk/services/sip-trunk.service.ts:33-184 | in particular over every run with both writes confirmed and no password over 80 characters |
| TrunkRollback.ConsistentIsSane | src/modules/trunk/services/sip-trunk.service.ts:33-184 | exact tables are a state from which the next three hold, with no trunk out of sync |
| TrunkRollback.OpContained | src/modules/trunk/services/sip-trunk.service.ts:33-184 | whatever fails, an operation leaves every other trunk, its rows and all foreign rows as they were; success means that its trunk has exactly its rows |
| TrunkRollback.RunsStaySynced | src/modules/trunk/services/sip-trunk.service.ts:33-184 | over any run with any failures: every trunk whose last operation with an effect succeeded has exactly its rows, and every foreign row is as it was |
| TrunkRollback.OthersUntouched | src/modules/trunk/services/sip-trunk.service.ts:33-184 | a trunk no operation of the run is about keeps its entry and its rows |
| TrunkRequests.UpdateStoresIff | src/modules/trunk/services/sip-trunk.service.ts:72-131 | an update succeeds iff the owner asks for it, the trunk with the named fields changed is admissible, both writes are done and the password fits; then that trunk is stored, and whenever the entry changes at all it is as asked for |
| TrunkRequests.CreateStoresIff | src/modules/trunk/services/sip-trunk.service.ts:33-62 | the same of a create, whose trunk is enabled unless asked otherwise |
| TrunkRequests.LoginErrors | src/modules/trunk/services/sip-trunk.service.ts:254-280 | which refusal a login gets, in terms of blank and long values |
| TrunkRequests.ExactRowsSay | src/modules/pbx/repositories/pjsip-realtime.repository.ts:135-198 | while the tables are exact every trunk has one contact, the login of its username and password in credentials mode only, and as addresses exactly its matches when enabled and none when disabled |
| TrunkRequests.UpdateDoesWhatIsAsked | src/modules/trunk/services/sip-trunk.service.ts:72-131 | a successful update of exact tables stores exactly the fields asked for and leaves exact tables whose rows say so: disabled, the endpoint has no address; enabled, exactly its matches; in credentials mode the password asked for |
| TrunkRequests.CreateDoesWhatIsAsked | src/modules/trunk/services/sip-trunk.service.ts:33-62 | so does a successful create |
| TrunkRequests.OthersAreRefused | src/modules/trunk/services/sip-trunk.service.ts:242-252 | a trunk that does not exist or is another tenant's cannot be updated, deleted or synced, and nothing changes |
| TrunkRequests.DeleteDoesWhatIsAsked | src/modules/trunk/services/sip-trunk.service.ts:133-140 | the owner's delete succeeds iff both writes are done; then the trunk and all of its rows are gone and the tables exact |
| ExtensionAllocator.MaxExtensionId | src/modules/pbx/repositories/extension.repository.ts:58-69 | the largest number in the table, or the base |
| ExtensionService.Service.TryAcquireLock | src/infra/redis/services/redlock.service.ts:9-18 | granted iff the key is free |
| ExtensionService.Service.ReleaseLock | src/infra/redis/services/redlock.service.ts:42-49 | deletes the key iff it holds the own value |
| ExtensionService.Service.GetNextExtensionId | src/modules/pbx/services/extension.service.ts:65-96 | the allocator by itself is a run of the interleaved protocol by this call alone, on every path; it yields the key plus one, or with no key and a free lock the maximum plus one, and nothing while another has the lock |
| ExtensionService.Service.AllocateLocked | src/modules/pbx/services/extension.service.ts:76-95 | the locked path by itself is one too: maximum plus one becomes the key and the result |
| ExtensionService.Service.CreatePoolExtension | src/modules/pbx/services/extension.service.ts:98-109 | the row is created under the number given |
| ExtensionAllocator.LockKept | src/infra/redis/services/redlock.service.ts:9-49 | at most one call is between grant and release, whatever interleaves and fails |
| ExtensionAllocator.KeyKept | src/modules/pbx/services/extension.service.ts:65-96 | in every run the key, once set, stays set, and rows have numbers |
| ExtensionAllocator.UnsetKept | src/modules/pbx/services/extension.service.ts:65-96 | only the holder of the lock reads the maximum or sets the key, and only while the key is unset, unless its second look fails on a set key |
| ExtensionAllocator.NumbersKept | src/modules/pbx/services/extension.service.ts:65-96 | numbers given out stay distinct, not above the key and not in the table before their row, as long as a SET goes above them |
| ExtensionAllocator.SafeRunsKeepNumbers | src/modules/pbx/services/extension.service.ts:65-96 | all of it after every interleaving, with crashes, lost replies, expired locks and failing commands, failing GETs reading as no key, as long as no SET goes back |
| ExtensionAllocator.SetOnceIsSafe | src/modules/pbx/services/extension.service.ts:65-96 | no SET goes back if none takes effect on a set key |
| ExtensionAllocator.TimelySetsOnce | src/modules/pbx/services/extension.service.ts:65-96 | none does if no holder outlives its lock and no second look fails while the key is set |
| ExtensionAllocator.NumbersAreUnique | src/modules/pbx/services/extension.service.ts:65-96 | no two calls get the same number and none gets one already in the table, in every run in which no SET takes effect on a set key |
| ExtensionAllocator.TimelyNumbersAreUnique | src/modules/pbx/services/extension.service.ts:65-96 | in particular in every run in which no holder outlives its 60 seconds and no second look fails while the key is set |
| AllocatorExactness.UniqueIff | src/modules/pbx/services/extension.service.ts:65-96 | numbers are unique throughout a run, and stay so in every continuation without another SET, iff each SET that took effect was above every number given out or stored |
| AllocatorExactness.UniqueFromTheStartIff | src/modules/pbx/services/extension.service.ts:65-96 | the same for every run from any table |
| AllocatorExactness.StalledHolderDuplicates | src/modules/pbx/services/extension.service.ts:76-95 | from any state with a holder about to read the maximum and the key unset: if it then stalls for 60 seconds, a second call and its own SET give both the same number |
| AllocatorExactness.SetIff | src/modules/pbx/services/extension.service.ts:76-95 | one SET leaves numbers unique for good iff it is above every number given out or stored |
| AllocatorExactness.FailedLookIff | src/modules/pbx/services/extension.service.ts:76-95 | a holder whose second look fails, and that goes on undisturbed, leaves numbers unique iff every number given out has reached the table |
| AllocatorExactness.FailedLooksDuplicate | src/infra/redis/services/redis.service.ts:183-206 | a GET that fails reads as no key: from any state with the key set and the lock free, a new call both of whose looks fail gets the number of a call about to create the next row, with the clock standing still |
| TenantExtensions.FoundFor | src/modules/pbx/repositories/extension.repository.ts:117-125 | the rows that are named and belong to the tenant |
| TenancyExtensionService.Service.AdjustExtensionStats | src/modules/tenancy/repositories/tenancy.repository.ts:49-60 | increments on an existing row, no effect without one; the two increments are separate writes and the second may be missed |
| TenancyExtensionService.Service.FindLowestAvailable | src/modules/pbx/repositories/extension.repository.ts:81-93 | the available row with the lowest number, or none exists |
| TenancyExtensionService.Service.AssignOneAvailableToTenant | src/modules/pbx/services/extension.service.ts:157-164 | reserves exactly that row, or fails on an empty pool |
| TenancyExtensionService.Service.AssignReservedExtensionsToUser | src/modules/pbx/repositories/extension.repository.ts:106-149 | all named rows or none; duplicates, strangers and rows not reserved roll back |
| TenancyExtensionService.Service.HandleEventBulkExtensionAssignment | src/modules/tenancy/services/tenancy-extension.service.ts:59-76 | the bulk loop: one reservation and one count per round; what was reserved before an empty pool or a failing count stays |
| TenancyExtensionService.Service.CreateTenantUser | src/modules/tenancy/services/tenancy-extension.service.ts:110-125 | every outcome: the user stays when the assignment fails, the assignment stays when provisioning fails, which a long name makes it do, and then no counter moves |
| TenancyExtensionService.Service.AssignExtensionsToUser | src/modules/tenancy/services/tenancy-extension.service.ts:127-146 | every outcome of assigning, provisioning and counting |
| TenancyExtensionService.Service.UnassignExtension | src/modules/tenancy/services/tenancy-extension.service.ts:89-99 | every outcome of unassigning, with the counters reached |
| TenancyExtensionService.Service.UnregisterExtension | src/modules/tenancy/services/tenancy-extension.service.ts:101-108 | every outcome of unregistering, with the counter reached |
| TenancyExtensionService.Service.UnassignAll | src/modules/tenancy/services/tenancy-extension.service.ts:217-223 | the deletion loop, in whatever order the rows come, up to the first one that cannot be counted |
| TenancyExtensionService.Service.DeleteTenantUser | src/modules/tenancy/services/tenancy-extension.service.ts:207-227 | while extensions belong to their users' tenants the loop stops only after an unassigned row, and then the user stays; otherwise the user is deleted as in `TenantRequests.DeleteRemovesUser` |
| TenantExtensions.Moved | src/modules/tenancy/services/tenancy.service.ts:87-101 | when a set of rows changes shape, the deltas are exactly what the counts change by, for every tenant |
| TenantExtensions.ReserveKeepsInv | src/modules/pbx/services/extension.service.ts:157-164 | reserving keeps shapes, counters and users in agreement |
| TenantExtensions.AssignKeepsInv | src/modules/pbx/repositories/extension.repository.ts:106-149 | assigning keeps them in agreement when it is counted, also when it is refused |
| TenantExtensions.UnassignKeepsInv | src/modules/pbx/services/extension.service.ts:217-233 | unassigning keeps them in agreement |
| TenantExtensions.UnregisterKeepsInv | src/modules/pbx/services/extension.service.ts:235-250 | unregistering keeps them in agreement |
| TenantExtensions.DeleteUserKeepsInv | src/modules/tenancy/services/tenancy-extension.service.ts:207-227 | deleting a user keeps them in agreement and leaves no extension of the user |
| TenantExtensions.RunsKeepInv | src/modules/tenancy/services/tenancy-extension.service.ts:59-227 | after any run whose changes are all counted every extension has one of the three shapes and every tenant's counters equal its numbers of reserved and assigned extensions |
| TenantExtensions.UnregisterUndoesReserve | src/modules/pbx/services/extension.service.ts:157-250 | unregistering gives back exactly what reserving took |
| TenantCounting.OpAccounted | src/modules/tenancy/services/tenancy-extension.service.ts:59-227 | whatever an operation misses, rows and users stay in order and the counters are off by exactly the deltas missed |
| TenantCounting.RunsAccounted | src/modules/tenancy/services/tenancy-extension.service.ts:59-227 | the same after any run, wherever its operations fail between rows and counters |
| TenantCounting.ExactRunIff | src/modules/tenancy/services/tenancy-extension.service.ts:59-227 | after any run a tenant's counters are its numbers of reserved and assigned extensions iff the deltas missed since add up to nothing |
| TenantCounting.AssignExactIff | src/modules/tenancy/services/tenancy-extension.service.ts:127-146 | an accepted assignment leaves exact counters exact iff both increments go through, for which every caller id must fit its 100 characters |
| TenantCounting.LongNameIsNotCounted | src/modules/tenancy/services/tenancy-extension.service.ts:110-125 | a user with a name of more than 96 characters is created and gets its extensions, but the request fails and no counter moves |
| TenantRequests.AssignIff | src/modules/pbx/repositories/extension.repository.ts:106-149 | an assignment goes through iff each extension is named once, is the tenant's and is free; then exactly those are the user's, under the user's name; otherwise nothing changes and the answer says why |
| TenantRequests.CreateMakesUser | src/modules/tenancy/services/tenancy-extension.service.ts:110-125 | after a create the user exists with that tenant and name, also when the assignment is refused, and nobody else changes; a new user has exactly the extensions named, or none |
| TenantRequests.AssignToUserIff | src/modules/tenancy/services/tenancy-extension.service.ts:127-146 | extensions go to an existing user of the tenant only |
| TenantRequests.UnassignIff | src/modules/pbx/services/extension.service.ts:217-233 | the tenant takes back an assigned extension of its own, exactly that one, clearing user and names |
| TenantRequests.UnregisterIff | src/modules/pbx/services/extension.service.ts:235-250 | an extension of the tenant that nobody has goes back to the pool |
| TenantRequests.DeleteRemovesUser | src/modules/tenancy/services/tenancy-extension.service.ts:207-227 | the deletion succeeds iff the user is the tenant's; then the user, and nobody else, is gone, its extensions are free, and a second deletion or an assignment finds nobody |
| TenantRequests.InterruptedKeepsUser | src/modules/tenancy/services/tenancy-extension.service.ts:207-227 | a deletion that fails on the way keeps the user and frees exactly the extensions it got to |
| TenantRequests.DeleteUndoesCreate | src/modules/tenancy/services/tenancy-extension.service.ts:110-227 | deleting a user just created restores users, counters and rows, but for the names the extensions had before |
| TenantRequests.FatesLeaveUsers | src/modules/tenancy/services/tenancy-extension.service.ts:110-146 | what happens to the counters changes neither rows nor users |
| TenantRequests.FatesLeaveRows | src/modules/tenancy/services/tenancy-extension.service.ts:89-108 | nor when an extension is taken back |
| AmiFraming.IndexOfSeparator | scripts/asterisk-cdr-webhook.js:132-134 | the first separator, or none exists |
| AmiFraming.AmiConnection.OnData | scripts/asterisk-cdr-webhook.js:122-148 | the loop handles the non-blank messages the chunk completes and keeps the rest; over all chunks so far what was handled and what is left are those of the whole stream |
| AmiFraming.FramesAppend | scripts/asterisk-cdr-webhook.js:122-148 | framing two parts of a stream is framing the first, then its rest with the second |
| AmiFraming.ChunkInvariant | scripts/asterisk-cdr-webhook.js:122-148 | for every split into chunks the messages and the leftover are those of the whole stream |
| AmiFraming.ChunksHandled | scripts/asterisk-cdr-webhook.js:122-148 | for every split into chunks the messages handled are the non-blank messages of the whole stream, in order |
| AmiFraming.Reassembles | scripts/asterisk-cdr-webhook.js:132-142 | messages with their separators and the rest give the stream back |
| AmiFraming.RoundTripIff | scripts/asterisk-cdr-webhook.js:132-142 | messages sent come back as sent iff none completes a separator early |
| AmiMessage.ParseMessage | scripts/asterisk-cdr-webhook.js:375-408 | the loop over lines: names and values trimmed, lines without a colon skipped, later ones win |
| AmiMessage.ParsesRendered | scripts/asterisk-cdr-webhook.js:375-408 | parsing rendered header lines gives back every name and value |
| AmiWorker.CdrWorker.HandleRawMessage | scripts/asterisk-cdr-webhook.js:185-197 | a message is parsed and handled, and conservation, timers and payload facts are kept |
| AmiWorker.CdrWorker.HandleMessage | scripts/asterisk-cdr-webhook.js:185-300 | which messages are kept, under LinkedID or else UniqueID, and when the timer is (re)started; what that means is `AmiKeys.MessageIsKeptIff` |
| AmiWorker.CdrWorker.ScheduleCallFinalization | scripts/asterisk-cdr-webhook.js:302-320 | the old timer is cleared, a new one due after a second |
| AmiWorker.CdrWorker.FinalizeCall | scripts/asterisk-cdr-webhook.js:322-373 | the bucket is removed and sent, its timer cleared |
| AmiWorker.CdrWorker.FilterCdrs | scripts/asterisk-cdr-webhook.js:341-343 | exactly the Cdr events, in order |
| AmiWorker.CdrWorker.FireTimer | scripts/asterisk-cdr-webhook.js:317-319 | a due timer finalizes its call, once, and those facts are kept |
| AmiAggregation.MessageKeepsInv | scripts/asterisk-cdr-webhook.js:185-320 | a message keeps conservation, timers and payload facts |
| AmiAggregation.FireKeepsInv | scripts/asterisk-cdr-webhook.js:322-373 | so does a timer |
| AmiAggregation.FireDrops | scripts/asterisk-cdr-webhook.js:322-373 | the timer that fires is its bucket's, and its payload is due |
| AmiAggregation.RunsKeepInv | scripts/asterisk-cdr-webhook.js:185-373 | per call, sent then pending events are the accepted ones in order; every payload holds a Cdr and is sent a second or more after its last; live timers are exactly those of buckets with a Cdr |
| AmiAggregation.EveryRunKeepsInv | scripts/asterisk-cdr-webhook.js:185-373 | the same for every run from the start of the worker |
| AmiKeys.MessageIsKeptIff | scripts/asterisk-cdr-webhook.js:185-300 | a message adds exactly one event, to the end of its call, iff it is no action response, its event is listed and it has a LinkedID or UniqueID, under either spelling; any other changes nothing |
| AmiKeys.EventsOfACallShareItsKey | scripts/asterisk-cdr-webhook.js:229-238 | in every run an event is kept under its LinkedID, or without one under its UniqueID; events with one LinkedID are all kept together |
| AmiKeys.PayloadsAreOfOneCall | scripts/asterisk-cdr-webhook.js:240-373 | in every run a payload holds events of one call only: each LinkedID in it is the call it is sent for, and the payload names it iff its first event does |
| AmiKeys.QuietCallIsSent | scripts/asterisk-cdr-webhook.js:302-373 | 1000 milliseconds after its last Cdr the timer of a call sends every event of it, with exactly the Cdrs and the distinct unique ids, and forgets it |
| AmiKeys.NotSentSooner | scripts/asterisk-cdr-webhook.js:302-320 | and no timer sends a call sooner |
| AmiKeys.CdrsConcat | scripts/asterisk-cdr-webhook.js:341-343 | the Cdrs of a payload keep their order |
| AriConsumerService.Service.AcquireLock | src/infra/redis/services/redlock.service.ts:9-18 | granted iff the lease is free |
| AriConsumerService.Service.RenewLock | src/infra/redis/services/redlock.service.ts:51-64 | extends the lease iff it holds the own value |
| AriConsumerService.Service.ReleaseLock | src/infra/redis/services/redlock.service.ts:42-49 | deletes the lease iff it holds the own value |
| AriConsumerService.Service.LeaderElectionRound | src/modules/pbx/services/ari-consumer.service.ts:73-95 | one undisturbed round is ask, set, reply of the protocol; leader iff already or granted |
| AriConsumerService.Service.RenewLeaderLock | src/modules/pbx/services/ari-consumer.service.ts:111-134 | one undisturbed renewal; a process whose check fails has stepped down when it returns |
| AriConsumerService.Service.OnModuleDestroy | src/modules/pbx/services/ari-consumer.service.ts:46-53 | undisturbed shutdown gives the lease up |
| LeaderElection.SetNxKeepsInv | src/infra/redis/services/redlock.service.ts:9-18 | a grant needs a lease nobody relies on |
| LeaderElection.RenewSetKeepsInv | src/infra/redis/services/redlock.service.ts:51-64 | a late SET shortens nobody's protection |
| LeaderElection.ReleaseDeleteKeepsInv | src/infra/redis/services/redlock.service.ts:42-49 | whoever deletes is the only one relying on the key |
| LeaderElection.RunsKeepInv | src/modules/pbx/services/ari-consumer.service.ts:73-134 | the protection of every claimant over all interleavings, with failing commands, lost replies and crashes |
| LeaderElection.AtMostOneLeader | src/modules/pbx/services/ari-consumer.service.ts:73-134 | in every run in which whoever relies on its lease acts before it expires, with failing commands, lost replies and crashes, at most one running process is leader |
| LeaderElection.StepKeepsOwn | src/infra/redis/services/redlock.service.ts:42-64 | who relies on the key finds its own value there, as long as no attempt ends with a renewal in flight |
| LeaderElection.QuietRunsTouchOwn | src/infra/redis/services/redlock.service.ts:42-64 | then no SET and no DEL ever touches another process's lease |
| LeaderElection.InFlightCanOverwrite | src/modules/pbx/services/ari-consumer.service.ts:46-53 | conversely: from any state with an ended attempt whose renewal is in flight, whoever holds the key, some run just as timely has a SET or DEL that hits another process's lease |
| LeaderElection.ShutdownLeavesRenewal | src/modules/pbx/services/ari-consumer.service.ts:46-53 | shutting down between a renewal's comparison and its SET leads there |
| LeaderElection.CrashLeavesRenewal | src/modules/pbx/services/ari-consumer.service.ts:111-134 | so does a crash there |
| LeaderElection.FailedRenewalStepsDown | src/modules/pbx/services/ari-consumer.service.ts:111-134 | a renewal that finds another value, or whose GET fails, ends for good every leadership its process has when the reply arrives, whatever happens in between |
| LeaderElection.LateFailureDropsHolder | src/modules/pbx/services/ari-consumer.service.ts:111-134 | a late failure of an earlier lock costs the process the lease it holds under a later one; that lease stays in Redis with nobody leading |
| LeaderElection.FailedGetDropsHolder | src/infra/redis/services/redis.service.ts:183-206 | a leader that holds the lease steps down on one failing GET; the lease stays, and nobody leads |
| LeaderElection.LostGrantKeepsOut | src/infra/redis/services/redlock.service.ts:9-18 | a grant whose reply is lost keeps every other process out until the lease expires, with nobody leading |
| LeaderElection.LateLeadersOverlap | src/modules/pbx/services/ari-consumer.service.ts:111-134 | a leader whose lease expired unrenewed can be joined by another |
| Click2Call.CalleeArgsRoundTrip | src/modules/calls/services/click2call-workflow.service.ts:75-103 | the arguments sent with the callee leg parse back to its call, number, direction and role |
| Click2Call.FindCall | src/modules/calls/repositories/calls.repository.ts:177-205 | a call found has the channel, and is un-ended if so asked |
| Click2CallService.Click2CallWorkflowService.HandleStasisStart | src/modules/calls/services/click2call-workflow.service.ts:184-248 | channel ids are taken over only if unset or equal |
| Click2CallService.Click2CallWorkflowService.HandleChannelStateChange | src/modules/calls/services/click2call-workflow.service.ts:250-294 | who is told of, dialled or bridged on an answer |
| Click2CallService.Click2CallWorkflowService.OriginateCalleeLeg | src/modules/calls/services/click2call-workflow.service.ts:419-495 | every outcome of dialling, with effects in order |
| Click2CallService.Click2CallWorkflowService.BridgeClick2CallLegs | src/modules/calls/services/click2call-workflow.service.ts:497-570 | every outcome of bridging, with effects in order |
| Click2CallService.Click2CallWorkflowService.HandleChannelDestroyed | src/modules/calls/services/click2call-workflow.service.ts:296-417 | the first hang-up ends the call, tells of the leg that ended and hangs up the other one; which is which is `Click2CallSteps.EndHangsUpOther` |
| Click2CallService.Click2CallWorkflowService.EmitWebhook | src/modules/calls/services/click2call-workflow.service.ts:592-618 | no webhook without a tenant |
| Click2CallService.Click2CallWorkflowService.HandleEvent | src/modules/calls/services/click2call-workflow.service.ts:184-417 | every event keeps each command and webhook of each call at most once and what is set or ended as it is |
| Click2CallSafety.DialGood | src/modules/calls/services/click2call-workflow.service.ts:419-495 | dialling keeps at-most-once and the fields already set |
| Click2CallSafety.BridgeGood | src/modules/calls/services/click2call-workflow.service.ts:497-570 | so does bridging |
| Click2CallSafety.EndGood | src/modules/calls/services/click2call-workflow.service.ts:296-417 | so does ending |
| Click2CallSafety.StepKeepsInv | src/modules/calls/services/click2call-workflow.service.ts:184-570 | every event keeps at-most-once; ids, bridge and end time stay once set; an ended call causes nothing more |
| Click2CallSafety.AtMostOnceEach | src/modules/calls/services/click2call-workflow.service.ts:184-570 | for any duplicated or reordered events, between any two points of a run: at most one origination, one bridging, one CallerConnected (with a destination), one CalleeConnected, one end webhook, none after the end; nothing once set changes |
| Click2CallSafety.EmptyDestinationTellsAgain | src/modules/calls/services/click2call-workflow.service.ts:419-423 | without a destination every repeated answer tells of the caller again |
| Click2CallSafety.CalleeToldAfterCaller | src/modules/calls/services/click2call-workflow.service.ts:250-294 | CalleeConnected comes only after CallerConnected, in every run whose callee legs start with arguments that were sent |
| Click2CallSteps.NewestFound | src/modules/calls/repositories/calls.repository.ts:177-205 | the call looked up is the newest active one with the channel, and none is found iff there is none |
| Click2CallSteps.EndHangsUpOther | src/modules/calls/services/click2call-workflow.service.ts:296-417 | a channel that is gone ends the newest active call that has it: unless bridged exactly the other leg is hung up on; the one webhook names the leg that ended and whether it was not answered; status by bridge and cause, whole seconds as duration |
| Click2CallSteps.GoneIsNotHungUp | src/modules/calls/services/click2call-workflow.service.ts:385-395 | the leg that is gone is never hung up on, when the two differ |
| Click2CallSteps.GoneElsewhere | src/modules/calls/services/click2call-workflow.service.ts:296-345 | nothing happens for a channel without an active call |
| Click2CallSteps.AgentAnswers | src/modules/calls/services/click2call-workflow.service.ts:279-288 | the agent's answer tells of the caller and dials the callee iff there is a number and, if internal, an extension; the arguments bring the callee leg back to its call; only failed dialling hangs up on the agent |
| Click2CallSteps.CalleeAnswersBridges | src/modules/calls/services/click2call-workflow.service.ts:290-294 | the callee's answer bridges the two legs of the call and no others, then tells of the callee; or the call has failed |
| Click2CallSteps.OtherAnswers | src/modules/calls/services/click2call-workflow.service.ts:250-294 | any other answer changes no row and sends nothing |
| Click2CallSteps.LegEnters | src/modules/calls/services/click2call-workflow.service.ts:184-248 | a leg takes its place in the call it names unless another channel has it, and nothing is sent |
| Click2CallSteps.LegOfNobody | src/modules/calls/services/click2call-workflow.service.ts:184-197 | arguments of another workflow or of an unknown call change nothing |
| Click2CallSteps.BridgedIffConnected | src/modules/calls/services/click2call-workflow.service.ts:184-570 | over any run: a call has a bridge iff its own two legs were connected by a successful command on it, and no other command connects any of its legs |
| KafkaRetry.KafkaConsumer.EachMessage | src/infra/kafka/services/kafka-consumer.service.ts:132-192 | the listener loop appends exactly the records and retries of each listener in turn |
| KafkaRetry.KafkaConsumer.ForListener | src/infra/kafka/services/kafka-consumer.service.ts:136-187 | one listener skips, succeeds, or fails and is handled |
| KafkaRetry.KafkaConsumer.HandleRetryOrDLQ | src/infra/kafka/services/kafka-consumer.service.ts:217-237 | retry below ten for a retrying listener, else dead letter |
| KafkaRetry.RetryRunsOnlyItsListener | src/infra/kafka/services/kafka-consumer.service.ts:138-146 | a retry runs its listener and no other iff the name is neither empty nor, beside others, NONE |
| KafkaRetry.ConsumeMovesFate | src/infra/kafka/services/kafka-consumer.service.ts:132-237 | one consumption moves the story of an event and a listener one step or not at all |
| KafkaRetry.EveryListenerHasAFate | src/infra/kafka/services/kafka-consumer.service.ts:132-237 | in any order and with any failures: failures 0, 1, ... then one success or one dead letter, or the next attempt is due |
| KafkaRetry.AtMostElevenAttempts | src/infra/kafka/services/kafka-consumer.service.ts:217-237 | at most eleven attempts at any time |
| KafkaRetry.ConsumeWeighsLess | src/infra/kafka/services/kafka-consumer.service.ts:217-237 | every consumption makes the topic lighter |
| KafkaRetry.RunsAreBounded | src/infra/kafka/services/kafka-consumer.service.ts:132-237 | so the topic runs empty after a bounded number of consumptions |
| KafkaRetry.DrainedMeansSettled | src/infra/kafka/services/kafka-consumer.service.ts:132-237 | and then nobody waits |
| KafkaRetry.ElevenAttemptsThenDeadLetter | src/infra/kafka/services/kafka-consumer.service.ts:132-237 | once the topic is empty: failures 0, 1, ... and then one success, at the latest the eleventh attempt, or one dead letter after exactly eleven attempts of a retrying listener, exactly one of any other |
| GlobalConfigService.Service.Create | src/modules/global/services/global-config.service.ts:30-44 | conflict, or row and both cache entries |
| GlobalConfigService.Service.FindById | src/modules/global/services/global-config.service.ts:50-66 | read-through by id |
| GlobalConfigService.Service.FindByKey | src/modules/global/services/global-config.service.ts:68-82 | read-through by key |
| GlobalConfigService.Service.Update | src/modules/global/services/global-config.service.ts:84-112 | every outcome of an update, with rename; unless the new key is empty, answer and table are as without cache and no entry goes stale |
| GlobalConfigService.Service.Delete | src/modules/global/services/global-config.service.ts:114-119 | row and both entries go |
| ConfigCache.UpdateTransparent | src/modules/global/services/global-config.service.ts:84-112 | an update answers and changes the table as without cache, and leaves no stale entry |
| ConfigCache.DeleteTransparent | src/modules/global/services/global-config.service.ts:114-119 | so does a deletion |
| ConfigCache.OpTransparent | src/modules/global/services/global-config.service.ts:30-136 | so does every operation, evictions included |
| ConfigCache.CacheIsTransparent | src/modules/global/services/global-config.service.ts:30-136 | over any run whose cache writes get through every answer is what the table alone would give |
| ConfigCache.EmptyKeyLeavesEntryIff | src/modules/global/services/global-config.service.ts:108-110 | an empty new key would leave a stale entry iff the old key is cached and not empty |
| ConfigCache.CreateStoresAsked | src/modules/global/services/global-config.service.ts:30-44 | a row is created with the fields asked for iff no row has its key |
| ConfigCache.UpdateStoresAsked | src/modules/global/services/global-config.service.ts:84-112 | an update succeeds iff the row exists and no other has the key asked for; named fields take the values asked for and all others stay |
| ConfigCache.FindsTheRow | src/modules/global/services/global-config.service.ts:50-82 | a row read is the one with that id or key, if there is one |
| ConfigCache.DeleteForgets | src/modules/global/services/global-config.service.ts:114-119 | a deleted row can be read neither by id nor by key, and no other row is lost |
| CacheFailures.CutNowhere | src/modules/global/services/global-config.service.ts:30-136 | cut off nowhere, an operation is the one of the cached service |
| CacheFailures.CutIff | src/modules/global/services/global-config.service.ts:30-136 | an operation cut off at a failing cache write leaves no stale entry iff it had not written the table, changed no field, or had got past the last stale entry |
| CacheFailures.TrueAnswersIff | src/modules/global/services/global-config.service.ts:50-82 | reads answer what the table says iff no entry is stale |
| CacheFailures.TrueRunIff | src/modules/global/services/global-config.service.ts:30-136 | over any run, wherever cache writes fail: reads answer what the table says after every operation iff no operation was cut off unsafely |
| WavFile.LeRoundTrip | src/modules/systemRecording/utils/pcm-to-wav.util.ts:11-22 | a number that fits its field is read back |
| WavFile.WriteUIntLE | src/modules/systemRecording/utils/pcm-to-wav.util.ts:11-22 | writes little-endian bytes in place, or refuses exactly the numbers that do not fit |
| WavFile.PcmToWav | src/modules/systemRecording/utils/pcm-to-wav.util.ts:5-24 | succeeds iff all numbers fit; then the file is a RIFF form with a format and a data chunk |
| WavFile.ReadsBack | src/modules/systemRecording/utils/pcm-to-wav.util.ts:5-24 | a chunk-walking RIFF/WAVE reader recovers samples, rate and channels, of two bytes a sample |
| WavFile.TagsSpell | src/modules/systemRecording/utils/pcm-to-wav.util.ts:5-24 | the four tags are the letters RIFF, WAVE, fmt and data |
| WavFile.DurationIsTight | src/modules/systemRecording/services/text-to-speech.service.ts:63-66 | the reported duration is the least whole number of seconds that holds the samples |

## Left out

- HTTP, ARI, the AMI socket and login, object storage, speech synthesis, webhook delivery and BullMQ: foreign
  input and output; an effect in a log or an outcome chosen by the environment stands for each.
- Commands to Asterisk that fail inside a queue handler, other than originations: the handler would stop there, after the
  row it has saved.
- Process restarts of the queue service, which lose its two in-memory maps.
- Interleaving inside one handler, outside the allocator and the lease: handlers are atomic over one
  consistent store.
- Agents on two calls at once, round-robin order within one call once the
  cursor member is excluded, and monotone click-to-call status: the code does not promise them.
- Liveness beyond ring attempts and retries: whether timers fire, renewals are scheduled or messages arrive.
- Reconnection of the AMI worker: the buffer carries over to a new connection as in the code.
- Shutdown of the AMI worker, which drops pending calls.
- `ExtensionService.updateExtension`, `deleteExtension`, `assignAvailableToTenant`, pool replenishment events and tenant
  deletion: outside the counter protocol.
- Extensions provisioned under a trunk's endpoint id: only trunk operations check availability; extension rows
  are arbitrary foreign rows whose auth ids end in `-auth`.
- The constant columns of realtime rows, call leg rows beyond whether a leg was answered, and webhook payload
  details: no decision depends on them.
- CRUD services, routing by application argument, phone number normalisation, the cause mapping beyond the status that
  selects a webhook, the CDR mapper: single-branch checks or library behaviour.
- ExtensionAllocator.NumbersAreUnique: the cache key, once set, is not lost; it has no expiry, but Redis may be
  flushed.
- Commands the Redis client sends again by itself after a reconnect: a command takes effect at most once here.
- ConfigCache.CacheIsTransparent: cache writes get through, and `GlobalConfigService` is modelled with them; what
  happens when one fails is `CacheFailures.TrueRunIff`.
- LeaderElection.AtMostOneLeader: assumes that grants, renewals and deletions land before the lease they rely on
  expires; `LateLeadersOverlap` shows why.
- KafkaRetry.EveryListenerHasAFate: each message is consumed once and publishing succeeds; subscriber names are
  compared only, so they are modelled by the two special names and numbers.
- TenantExtensions.RunsKeepInv: every change is counted; what happens when one is not is
  `TenantCounting.RunsAccounted`.
- TenancyExtensionService.Service.AssignAndCount: the caller id name is stored with the assignment, in the code after
  each extension is provisioned, so an assignment that fails may leave the old one; nothing in the model reads it.
  Caller id numbers are unset, as no operation modelled sets them.
- Rows of extensions in Asterisk, and `updateTenantUser`, which renames users and moves no counter.
- TrunkRuns.SyncChangesNothing: the matches of a trunk are loaded in the order they were saved; the relation in
  src/modules/trunk/entity/sip-trunk.entity.ts names no order, so a sync, or an update that keeps the matches, may
  write the same matches under exchanged ids (`ReorderedRows`).
- TrunkRuns.RunsKeepImageIff: a trunk is given at most ten million matches, beyond which `IdentifyIdCollision` applies.
- Widths of columns and limits of requests are compared in one unit; request validation counts UTF-16 code units and
  PostgreSQL characters, which differ outside the basic plane.
- WavFile.DurationIsTight: the division is over real numbers; a pad byte after odd data is neither written by the
  code nor required by the reader at the end of the file.
