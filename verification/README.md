# APTA core: a verified model

APTA analyses audio tracks incrementally. A host pushes or lends PCM, calls
`process` with a budget, and reads immutable, numbered results from any thread;
a finished result can be written to a container file and read again. This
project models the parts of the library that carry its state and arithmetic, and
proves what they promise over all inputs and all runs.

| modules | what they model |
|---|---|
| `Workspace`, `WorkspaceSize`, `WorkspaceReuse`, `WorkspaceTight` | the first-fit allocator in a host buffer and the predictor of that buffer's size |
| `Scheduler`, `Requests`, `Sorting` | region requests, the aging score, the request served next |
| `ResultPool`, `ResultPoolSteps`, `ResultPoolSafety`, `ResultPoolProgress` | publication through two slots, with readers on other threads, as interleaved atomic steps |
| `GridEvidence`, `GridWindows`, `GridMerging`, `GridBeats`, `GridCommit`, `GridAcceptance`, `GridTelling`, `GridRefresh`, `GridBudget`, `GlobalGridSession` | the resumable global beat grid, from ring of onset bins to accepted revision |
| `Bytes`, `Buffers`, `Cbor`, `CborCursor`, `CborItems`, `Utf8`, `Meta`, `MetaCodec`, `MetaItems` | metadata and its deterministic CBOR encoding |
| `Crc32c` | the checksum, bit by bit |
| `Container`, `ContainerFields`, `ContainerMeaning`, `ContainerCodec`, `ContainerReader`, `ContainerAnswers`, `S4Payloads`, `S4Exact`, `ResultFile`, `FileDamage` | appending sections to a container, finding them again, and noticing damage |
| `LifecycleRules`, `Lifecycle`, `LifecycleOutcomes` | session states, end of input, pulling, the process lock |
| `Overview`, `PoolLayout`, `PoolRoom` | the pooled overview, its memory layout, coverage queries |
| `Memory` | the shared byte counter and its limit |

Code that changes state is modelled by classes and methods over arrays and fields.
Each is proved against a specification function, and the promises are lemmas about
that function. Sizes the C compiler decides, struct sizes and alignments, are
symbolic. Atomic operations are single steps that any thread may take in any
order. Energy, flux and estimates are `real`, and the tempo estimator is an
arbitrary function of the flux slice it is given, with results in range.

Where code and documentation differ, the model follows the code:

- docs/scheduler/APTA-SCHEDULER-POLICY-0.1.md promises that no eligible request
  starves. Two requests of base priority 250 starve a third; the exact limit up to
  which the promise holds is `Scheduler.PriorityLimitIsExact`.
- `apta_s6_beat_count` can count a beat more than a grid lists when a segment
  starts after its anchor; `GridBeats.CountIsSafeExactly` says when it cannot.
- A commit of the global grid is not atomic in one case, a used-up revision number.
- The reader rejects a revision of a final grid that a locked local grid disputes.
- A creation time given without its flag is not written to META, so it is lost.
- The TEMP and LGRD writers accept more than the readers: rising scores, unknown
  relations, a segment tempo other than the selected one.
- Three guards never fire: the evidence capacity in the refresh, the summed size
  of metadata, and the overview limit for the session's own accumulators.

## Model

| member | source | states |
|---|---|---|
| Workspace.Arena.Allocate | src/core/apta_session_workspace.c:324-417 | the walk finds the first free block that fits, splits it if the rest can be a block, and hands out exactly the payload the specification names; the list stays tiled |
| Workspace.Arena.Deallocate | src/core/apta_session_workspace.c:419-463 | the block is found by its payload, freed and merged with a free successor, then with a free predecessor; a foreign or freed pointer changes nothing |
| Workspace.ApplyKeepsTiling | src/core/apta_session_workspace.c:324-463 | one allocation or release keeps: blocks cover the arena without gap or overlap, are aligned, hold what was asked, and no two neighbours are both free |
| Workspace.RunKeepsTiling | src/core/apta_session_workspace.c:287-463 | the same for every sequence of allocations and releases |
| Workspace.AllocateAddsOnePayload | src/core/apta_session_workspace.c:324-417 | a successful allocation adds exactly one (address, size) to what callers hold; a failed one changes no block |
| Workspace.DeallocateRemovesOnePayload | src/core/apta_session_workspace.c:419-463 | a release removes exactly the payload at that address and no other |
| Workspace.LivePayloadsAreAlignedAndDisjoint | src/core/apta_session_workspace.c:46-55 | any two live payloads are aligned, inside the arena, behind their headers, and the first ends before the second one's header |
| Workspace.NothingLiveIsInitial | src/core/apta_session_workspace.c:419-463 | after any run that released everything, the arena is again the single initial block |
| Workspace.StepKeepsBudget | src/core/apta_session_workspace.c:96-110 | the split threshold equals the cheapest allocation, so after each step the last block still holds the unspent budget, or less is left than any allocation costs |
| Workspace.AllocationWithinBudgetSucceeds | src/core/apta_session_workspace.c:324-417 | in every interleaving, an allocation succeeds whenever the summed cost of all allocations ever made, this one included, fits the arena |
| WorkspaceSize.GrowableCost | src/core/apta_session_workspace.c:129-156 | the loop charges the whole doubling sequence of a growing table, saturating only when that sum or the table is too large |
| WorkspaceSize.WorkspaceRequirement | src/core/apta_session_workspace.c:158-277 | the predictor returns session object + every charged allocation + spare header, exactly; it returns the largest size only if that is not expressible or a table would hold more than 2^31 - 1 entries |
| WorkspaceSize.ColumnsAreThoseInTrack | src/core/apta_session_workspace.c:177-185 | a column is charged exactly when it begins inside the track: column d is among those charged if and only if d widths of frames are fewer than the track has |
| WorkspaceSize.CoveredRequestsCostLess | src/core/apta_session_workspace.c:96-128 | requests that each have a charged size of their own at least as large cost no more than the charge, in whatever order |
| WorkspaceSize.PredictedBufferServesChargedRun | src/core/apta_session_workspace.c:158-277 | in an aligned host buffer of the predicted size every allocation of every run succeeds if each request has a charged size of its own at least as large, whatever is released when |
| WorkspaceReuse.UsedDecidesBlocks | src/core/apta_session_workspace.c:419-463 | two lists over one arena with the same used blocks are equal: free space is always merged to the full |
| WorkspaceReuse.ReuseCostsNothing | src/core/apta_session_workspace.c:324-463 | over every run, an allocation released before the next allocation leaves the list as if it had never been made, whatever is released in between |
| WorkspaceReuse.PredictedBufferServesReuse | src/core/apta_session_workspace.c:158-277 | so a charged size may be used any number of times, for requests up to it, as long as each is released before the next allocation |
| WorkspaceReuse.PredictedBufferServesSession | src/core/apta_session_workspace.c:158-277 | a whole session is served, its demands given in frames and table entries: tables that grow to any column that begins inside the track, any band and range they may hold, each fixed buffer at most once and no larger than assumed (metadata of any size, a short last block), and any number of reused nodes |
| WorkspaceReuse.PartlyRefilledHoleIsLost | src/core/apta_session_workspace.c:324-417 | beyond that it may not: an input on which a smaller allocation takes part of a released node's place and the node is then refused, although only charged sizes are live |
| WorkspaceTight.AlignmentIsHonoured | src/core/apta_session_workspace.c:324-417 | an allocation with an alignment of its own is refused before the walk exactly when it asks for more than the arena gives or for no power of two; otherwise its payload has that alignment |
| WorkspaceTight.UsableAlignmentsAre | src/core/apta_session_workspace.c:340-360 | the alignments the allocator takes are the powers of two up to its own, and no other |
| WorkspaceTight.PredictionIsTight | src/core/apta_session_workspace.c:158-277 | conversely an arena in which everything charged is live at once is no smaller than the charge, however it came about |
| WorkspaceTight.EveryChargeIsAsked | src/core/apta_session_workspace.c:158-277 | and nothing is charged in vain: a session whose track is as long as configured and that uses all its features asks for exactly the charged sizes |
| WorkspaceSize.EnsureRangeCapacity | src/waveform/apta_waveform_input.c:134-184 | the growing range table doubles from 8 until the demand fits; limit, refused memory and success are told apart exactly |
| WorkspaceSize.GrowthStaysInChain | src/waveform/apta_waveform_input.c:134-184 | however the demand rises, a growing table only asks for sizes of the doubling sequence, each once |
| WorkspaceSize.TableGrowthIsCharged | src/core/apta_session_workspace.c:121-254 | the growth of the overview table up to any column that begins inside the track, and of the band and range tables, with each fixed buffer at most once and no larger than assumed, in any order, is covered by what the predictor charges |
| Scheduler.BetterIsStrictWeak | src/core/apta_scheduler_policy.c:69-105 | the score comparison is a strict weak order |
| Scheduler.BetterIsTotal | src/core/apta_scheduler_policy.c:69-105 | two competing requests with different ids or serials are never tied |
| Scheduler.NothingBeatsPick | src/waveform/apta_waveform_scheduler.c:23-49 | the request served is one that no request in the table beats |
| Scheduler.PickIsMostUrgent | src/core/apta_scheduler_policy.c:35-105 | in the requests' own fields: no waiting request has a higher aged priority than the one served; among those of that priority it has a deadline if any has one, and the earliest; among those still equal the smallest serial, then the smallest id |
| Scheduler.StageRequests | src/waveform/apta_waveform_scheduler.c:51-89 | staging sorts the table by score, in place, and writes each competing request's aged priority |
| Scheduler.PickToken | src/waveform/apta_waveform_process.c:811-828 | the pick loop finds the first competing request of the largest priority |
| Scheduler.NextPcmRequest | src/waveform/apta_waveform_scheduler.c:91-118 | staging, picking, restoring: what is picked is the head of the staged table, and afterwards the table is as before but for the choice noted |
| Scheduler.TokenIsMostUrgent | src/waveform/apta_waveform_scheduler.c:51-118 | so is the token the staged pick loop hands out, and there is none exactly when no request waits |
| Scheduler.HeadIsDecision | src/waveform/apta_waveform_scheduler.c:91-118 | serving the head of the staged table is one decision of the scheduler |
| Sorting.SortIsStable | src/waveform/apta_waveform_scheduler.c:60-73 | the insertion sort keeps the order of elements of equal standing |
| Sorting.SortIsCorrect | src/waveform/apta_waveform_scheduler.c:51-89 | the insertion sort returns the same elements, ordered |
| Scheduler.StagedHeadIsPicked | src/waveform/apta_waveform_scheduler.c:51-89 | the head of the staged table is the best request |
| Scheduler.NoteChoice | src/core/apta_scheduler_policy.c:107-130 | the chosen request restarts its skip counter, each other active request ages by one up to 32, ended ones are left alone |
| Scheduler.ChoiceTells | src/core/apta_scheduler_policy.c:107-130 | what a choice does to each request in its own fields: ended ones keep their count, the chosen one starts again, every other ages by one up to 32 |
| Scheduler.StagedTells | src/core/apta_scheduler_policy.c:35-67 | staging writes min(255, priority + 8 skips) into a waiting request and touches nothing else |
| Scheduler.EndedScoresLast | src/core/apta_scheduler_policy.c:35-67 | an ended request never scores better than one that waits |
| Scheduler.RoundsKeepContest | src/core/apta_scheduler_policy.c:107-130 | any number of decisions changes nothing but skip counters |
| Scheduler.EveryRequestIsPicked | src/core/apta_scheduler_policy.c:35-130 | n competing requests whose base priorities p all satisfy ceil((255 - p) / 8) >= n - 1: each is picked within 32 + n decisions |
| Scheduler.LastRivalStarves | src/core/apta_scheduler_policy.c:35-130 | equal requests beyond that bound: the last one is never picked, however long one waits |
| Scheduler.PriorityLimitIsExact | src/core/apta_scheduler_policy.c:35-130 | a common priority limit prevents starvation if and only if ceil((255 - limit) / 8) >= n - 1 |
| Scheduler.TwoCriticalRequestsStarveAThird | src/core/apta_scheduler_policy.c:35-105 | priority 250: two requests alternate over a third for ever, against docs/scheduler/APTA-SCHEDULER-POLICY-0.1.md |
| Requests.RequestTable.AllocateId | src/core/apta_session_scheduler.c:25-41 | the wrapping counter yields a non-zero id no slot carries, and never gives up |
| Requests.RequestTable.RequestRegion | src/core/apta_session_scheduler.c:77-160 | a bad range, an unsupported or unconfigured feature, a conflict, a limit and acceptance told apart exactly; acceptance fills the first free slot with the wanted or a new id and the next serial, anything else leaves the table alone |
| Requests.RequestTable.Cancel | src/core/apta_session_scheduler.c:162-180 | exactly the request with that id is marked cancelled |
| Requests.TableIsContest | src/core/apta_session_scheduler.c:77-160 | every table these calls can produce has distinct ids and serials, so the waiting bound applies to it |
| ResultPoolSteps.StepKeepsInv | src/core/apta_result_pool.c:59-210 | every atomic step of every thread keeps: slot counts equal the holders, marks equal holders, claimers and closers, pool references equal owner and slots |
| ResultPoolSafety.RunKeepsInv | src/core/apta_result_lifetime.c:30-79 | the same for every interleaving of any number of threads |
| ResultPoolSafety.HolderProtects | src/core/apta_result_pool.c:90-210 | while a reference exists the slot is marked, claimed by nobody, closed by nobody, and the pool is not freed |
| ResultPoolSafety.HeldResultSurvives | src/core/apta_result_lifetime.c:187-208 | from acquire to release a reader keeps the same generation in an active slot, past any publish and past the end of the session |
| ResultPoolSafety.AcquireGivesCurrent | src/core/apta_result_lifetime.c:187-203 | acquire hands out the result current at that moment, with its generation |
| ResultPoolSafety.PoolIsFreedOnce | src/core/apta_result_pool.c:70-88 | in every run the pool is freed at most once, and exactly when the session is gone and every thread has let go |
| ResultPoolSafety.NothingMovesAfterFree | src/core/apta_result_pool.c:70-88 | after the free no thread can take another step |
| ResultPoolSafety.PoolReferencesAreOwnerAndSlots | src/core/apta_result_pool.c:59-88 | between calls pool references equal session owner plus claimed slots |
| ResultPoolSafety.OnlySwapPublishes | src/core/apta_result_pool_publication.c:31-79 | only the swap under the lock changes the current result and raises the generation, by one; a failed publish changes neither |
| ResultPoolSafety.GenerationCountsSuccesses | src/core/apta_result_pool_publication.c:31-79 | over every run the generation is one plus the number of successful publishes, and an open session shows the newest |
| ResultPoolSafety.ClaimFindsFreeSlot | src/core/apta_result_pool.c:90-135 | a publish that starts while no superseded result is held, nor still being closed after its release, claims a slot by the second step of the host, whatever readers do meanwhile |
| ResultPoolSafety.HeldSupersededFailsPublish | src/core/apta_result_pool.c:90-135 | conversely, while a reader keeps a superseded result the whole scan finds no slot: within three steps of the host the publish has failed, and its last step changed nothing else |
| ResultPoolProgress.ClaimedIsPublished | src/core/apta_result_pool_publication.c:31-79 | a publish that has claimed a slot and whose build does not fail publishes: within five host steps that the lock does not block, whatever readers do in between, that slot is current, the generation has grown by one and success is reported |
| ResultPoolProgress.PublishStarts | src/core/apta_result_pool_publication.c:31-56 | a publish starts by looking for a slot, or fails at once when the generation numbers are used up |
| ResultPoolProgress.UnhinderedStarts | src/core/apta_result_pool_publication.c:31-56 | without a superseded result held its scan is one that will find a slot |
| ResultPoolProgress.UnhinderedIsPublished | src/core/apta_result_pool_publication.c:31-79 | a publish that starts while no superseded result is held does so within seven host steps |
| ResultPoolProgress.LockHolderGoesOn | src/core/apta_result_lifetime.c:187-203 | whoever holds the result lock can always take its next step, and gives the lock back |
| ResultPoolProgress.FailedBuildGivesBack | src/core/apta_result_pool_publication.c:56-71 | a publish whose build fails reports it, gives its slot and its pool reference back, and leaves the current result and the generation alone |
| ResultPoolProgress.HostIsNeverStuck | src/core/apta_result_pool_publication.c:31-79 | inside a publish or the end of a session the host can always take its next step, but for the one that waits for the lock |
| ResultPoolProgress.AloneReaderAcquires | src/core/apta_result_lifetime.c:187-203 | left alone on an open, unlocked session a reader ends up holding the current result with its generation |
| ResultPoolProgress.ReleaserGoesOn | src/core/apta_result_pool.c:137-210 | a release is never blocked, whatever the others do |
| ResultPoolProgress.DestroyStarts | src/core/apta_session_lifecycle.c:209-245 | the end of a session starts by taking the result lock |
| ResultPoolProgress.EndIsReached | src/core/apta_session_lifecycle.c:209-245 | the end of a session is reached within eight host steps that the lock does not block |
| ResultPoolProgress.EndedAndQuietIsFreed | src/core/apta_result_pool.c:70-88 | and once it is reached and no thread is inside a call or holds a result, the pool has been freed |
| ResultPoolSteps.LockIsExclusive | src/core/apta_result_lifetime.c:8-17 | at most one thread is between taking and releasing the result lock |
| ResultPoolSteps.ClaimedIsUnheld | src/core/apta_result_pool.c:90-194 | a slot being zeroed and filled is held by nobody |
| GridEvidence.FindEvidence | src/beatgrid/apta_s6.c:121-178 | returns a longest run of complete bins held in the ring, and of those the earliest; none exactly when no bin is complete |
| GridEvidence.BestIsUnique | src/beatgrid/apta_s6.c:121-178 | that description has only one answer |
| GridEvidence.RunFitsRing | src/beatgrid/apta_s6.c:739-744 | no run is longer than the ring, so the capacity guard never fires |
| GridEvidence.ProcessSample | src/beatgrid/apta_s6.c:646-690 | a sample lands in its bin's slot, resetting a slot that held another bin, and touches no other slot |
| GridEvidence.SampleKeepsRun | src/beatgrid/apta_s6.c:646-690 | a run that does not hold the sample's bin stays a run if and only if it does not hold the bin the sample evicts |
| GridEvidence.FullBinIsComplete | src/beatgrid/apta_s6.c:59-89 | fed in order, a bin is complete exactly when its last sample has arrived, also the cut one before a signalled end |
| GridTelling.BinNeedsItsFrames | src/beatgrid/apta_s6.c:59-78 | the samples a bin needs are exactly its 2048 frames that lie before a signalled end |
| GridTelling.EnergyIsMean | src/beatgrid/apta_s6.c:94-107 | the energy of a bin is its mean magnitude over full scale, none without samples |
| GridTelling.FluxIsRise | src/beatgrid/apta_s6.c:109-119 | the flux is the rise in energy since the bin before, over nothing for the first bin of a stretch, never a fall |
| GridBudget.PatchedSliceIsWindowFlux | src/beatgrid/apta_s6.c:750-790 | the shared cache with one patched element gives a window exactly the flux it would compute alone |
| GridBudget.PatchKeepsLaterFlux | src/beatgrid/apta_s6.c:750-790 | the patch of one window leaves every later window's cache alone |
| GridWindows.AverageIsBetween | src/beatgrid/apta_s6.c:374-441 | the running average of tempo stays between old value and new sample, so it stays in range |
| GridWindows.MergeIsOk | src/beatgrid/apta_s6.c:374-441 | whatever the estimator says, merged segments are ordered, disjoint, inside the evidence, in tempo range |
| GridMerging.MergeIsGrouping | src/beatgrid/apta_s6.c:374-441 | the merge is the grouping by hand: a window joins the last group exactly when that group's mean tempo is within 1500 of its own, opens another, or, beyond eight, only stretches the last; every draft is the running mean of its group in tempo and confidence, the totals count every merged window, degraded means some group was stretched |
| GridMerging.RunningMeanIsNear | src/beatgrid/apta_s6.c:427-433 | a running mean of n values kept in whole numbers lies below the exact mean by at most (n - 1) / 2 |
| GridBeats.PeriodIsTruncated | src/beatgrid/apta_s6.c:194-210 | the Q32 period is the exact one, 60000 rate / tempo frames, cut off |
| GridBeats.TruncationDrift | src/beatgrid/apta_s6.c:194-210 | that moves each of at most 3072 beats by less than 3072 / 2^32 frame |
| GridBeats.AlignedIsEarliest | src/beatgrid/apta_s6.c:516-560 | the first beat is the earliest step of the anchor not before the segment |
| GridBeats.GenerateBeats | src/beatgrid/apta_s6.c:516-585 | beat k of a segment is anchor + k period in Q32 exactly; ordinals run on; no 64-bit wrap; capacity cuts off the rest |
| GridBeats.GeneratedRises | src/beatgrid/apta_s6.c:516-585 | positions rise, ordinals rise by one across segments, every beat is inside its segment |
| GridBeats.GeneratedIsNonEmpty | src/beatgrid/apta_s6.c:516-585 | there is a beat exactly when some segment fits the 32-bit form and reaches its first beat |
| GridBeats.BeatCount | src/beatgrid/apta_s6.c:212-243 | the counter's result in closed form, 32-bit clamp and 64-bit wrap of its rounding included |
| GridBeats.CountIsExact | src/beatgrid/apta_s6.c:516-585 | how many beats a segment receives, below capacity |
| GridBeats.AnchoredCountIsSafe | src/beatgrid/apta_s6.c:212-243 | for a segment that starts at its anchor, as every refresh produces, the counter never exceeds the beats listed |
| GridBeats.CountIsSafeExactly | src/beatgrid/apta_s6.c:212-243 | in general it never exceeds them, for every range end, if and only if its first beat is not counted early |
| GridBeats.CountCanExceed | src/beatgrid/apta_s6.c:212-243 | an input on which it does exceed them |
| GridTelling.CounterTells | src/beatgrid/apta_s6.c:212-243 | the counter counts from the first step at or behind the start of the segment, or from the anchor where rounding up to it would wrap 64 bits |
| GridTelling.PlaceableExactly | src/beatgrid/apta_s6.c:516-560 | the 32-bit form holds exactly the segments whose frames and period are 32-bit numbers |
| GridTelling.UnplacedKeepsCount | src/beatgrid/apta_s6.c:516-560 | a segment that does not fit it gets no beats and keeps its count |
| GridTelling.MissingMeansFull | src/beatgrid/apta_s6.c:516-585 | only a full list of 3072 beats cuts short a segment that fits the 32-bit form |
| GridCommit.WidestDraft | src/beatgrid/apta_s6.c:860-884 | the earliest of the widest segments gives the nominal tempo |
| GridTelling.DegradedTells | src/beatgrid/apta_s6.c:516-585 | a committed grid is degraded exactly when its merge was, or when it lists its beats and some segment misses one |
| GridTelling.PlainCountTells | src/beatgrid/apta_s6.c:212-243 | a grid of the plain form counts exactly the steps of the period, rounded up to whole frames, from the anchor on that lie before the end |
| GridTelling.ListedBeatsTell | src/beatgrid/apta_s6.c:516-585 | a grid of the hybrid form lists exactly the beats its segments announce: from each segment's first ordinal on, beat k is k periods behind the anchor and before the end |
| GridTelling.CommittedSegmentsTell | src/beatgrid/apta_s6.c:907-928 | every segment of a committed grid is its draft in frames: place, end cut at the signalled end for the last one, anchor, exact period cut off at 32 fraction bits, tempo, confidence, flags |
| GridTelling.CommittedGridTells | src/beatgrid/apta_s6.c:888-955 | the grid is final exactly when its evidence is the whole track and the session drains, stable before that from 256 bins and mean confidence 50 on; its confidence is the mean over all merged windows |
| GridTelling.NominalIsLongest | src/beatgrid/apta_s6.c:860-884 | the nominal tempo is the one of the first of the longest segments |
| GridTelling.FallbackStandsIn | src/beatgrid/apta_s6.c:800-819 | without a single estimate the session's own tempo stands in for the whole stretch, degraded; otherwise the windows decide alone |
| GridTelling.SignedTellsApart | src/beatgrid/apta_s6.c:443-474 | what is signed tells grids apart by place, anchor, period and tempo of every segment, number of beats and form, and by nothing else |
| GridTelling.RevisionTells | src/beatgrid/apta_s6.c:984-1008 | the revision asks the host exactly while some segment shares a frame with the grid it locked and is more than 500 in tempo or one bin in anchor away; then it affects the locked range, else the evidence |
| GridTelling.SerialTells | src/beatgrid/apta_s6.c:1010-1015 | the grid serial steps exactly when something a reader sees changed |
| GridAcceptance.CommitIsAccepted | src/serialization/apta_s6_reader.c:299-370 | a commit passes the reader's checks: plain form always, hybrid form if and only if some segment fits 32-bit frames |
| GridTelling.AcceptedSegmentsAreApart | src/serialization/apta_s6_reader.c:299-345 | the reader compares neighbours, and so any two segments it accepts are in order, apart and inside the evidence |
| GridTelling.AcceptedBeatsRise | src/serialization/apta_s6_reader.c:345-370 | and any two beats rise in position and ordinal |
| GridTelling.AcceptedGridIs | src/serialization/apta_s6_reader.c:299-370 | an accepted grid is final or partial results are allowed, has 1 to 8 segments, at most 3072 beats, beats exactly in the hybrid form |
| GridTelling.AcceptedRevisionIs | src/serialization/apta_s6_reader.c:382-430 | an accepted revision numbers every segment and beat, and asks the host only about a grid that is not final |
| GridAcceptance.SmallTracksArePlaceable | src/beatgrid/apta_s6.c:516-585 | tracks below 2^32 frames always get a beat |
| GridAcceptance.RevisionIsAccepted | src/serialization/apta_s6_reader.c:382-430 | the revision passes the reader's checks if and only if not both final and disputed by a locked local grid |
| GridAcceptance.FinalCanBeDisputed | src/serialization/apta_s6_reader.c:382-430 | an input on which it does not: the whole track analysed, a local grid locked 1 bpm away |
| GridAcceptance.CommitBreaksExactly | src/beatgrid/apta_s6.c:925-982 | a commit is all or nothing except when the revision number is 2^32 - 1 and the grid changed, and then exactly not |
| GridAcceptance.CommitCanBreak | src/beatgrid/apta_s6.c:925-982 | an input on which it is not, reached by 2^32 - 1 commits from an empty grid: the next segment stands under the last revision |
| GridAcceptance.RevisionAdvances | src/beatgrid/apta_s6.c:925-982 | revision numbers start at 1, go up by one exactly when the signature changed, and remember their parent |
| GridBudget.CallAdvances | src/beatgrid/apta_s6.c:692-1031 | one call, whatever its budget and clock, goes on from where the last one stopped, within its limit, and moves if it has budget |
| GridBudget.BudgetIndependence | src/beatgrid/apta_s6.c:692-1031 | without input in between, calls with any budgets and deadline breaks either leave the visible grid untouched or have committed exactly the one refresh, in windows + 2 steps together |
| GridBudget.BudgetedCallsFinish | src/beatgrid/apta_s6.c:692-1031 | calls with budget finish the refresh within windows + 2 calls |
| GridTelling.StartsExactly | src/beatgrid/apta_s6.c:719-745 | a refresh starts exactly when there are 64 bins of evidence that went back, grew by 32, or may finish the grid of a track whose end is known |
| GridTelling.MovedExactly | src/beatgrid/apta_s6.c:821-838 | it is due again exactly when the evidence reached further back, lost its end, got 32 bins more, or changed at all once the end is known |
| GridTelling.OkLeavesFreshGrid | src/beatgrid/apta_s6.c:692-1031 | a call that reports nothing more to do and nothing pending leaves a grid that lags the evidence by less than 32 bins |
| GridBudget.WholeMergesEveryWindow | src/beatgrid/apta_s6.c:750-848 | what is committed is the merge of every window of the evidence, each from its own flux |
| GlobalGridSession.GlobalGrid.FillFlux | src/beatgrid/apta_s6.c:750-775 | the cache is filled for the whole evidence and nothing behind it |
| GlobalGridSession.GlobalGrid.DoWindow | src/beatgrid/apta_s6.c:776-848 | one window in place: patch, estimate, merge, advance |
| GlobalGridSession.GlobalGrid.Begin | src/beatgrid/apta_s6.c:692-775 | starts exactly when enough new evidence exists and there is budget; otherwise says why not |
| GlobalGridSession.GlobalGrid.Sweep | src/beatgrid/apta_s6.c:776-848 | windows until they, the budget or the clock run out, and not one more |
| GlobalGridSession.GlobalGrid.CommitGrid | src/beatgrid/apta_s6.c:849-1013 | replaces the visible grid, numbers it and reports conflict as specified, or breaks as specified |
| GlobalGridSession.GlobalGrid.Refresh | src/beatgrid/apta_s6.c:692-1031 | the resumable call on real arrays does exactly the specified refresh: state, status, steps and clock readings |
| GlobalGridSession.EvidenceIsBest | src/beatgrid/apta_s6.c:121-178 | the in-place search and the specification agree on the one best evidence |
| GlobalGridSession.AnchorsNeedNoAligning | src/beatgrid/apta_s6.c:516-560 | committed segments start at their anchors, so placing beats cannot overflow |
| GlobalGridSession.WholeRefreshCommits | src/beatgrid/apta_s6.c:692-1031 | a refresh on a fixed ring, however split, commits the merge of all its windows |
| GlobalGridSession.WholeRefreshIsAccepted | src/serialization/apta_s6_reader.c:299-430 | and what it leaves behind passes the reader's checks on segments and beats, and on the revision unless a final grid is disputed |
| Cbor.HeadSize | src/serialization/apta_meta_writer.c:80-95 | the size of the shortest head |
| Cbor.WriteHead | src/serialization/apta_meta_writer.c:97-129 | writes exactly the deterministic head (section 4.2.1 of RFC 8949) and no other byte |
| Cbor.WrittenHeadIsRead | src/serialization/apta_meta_reader.c:67-149 | a written head is read back, whatever follows it |
| Cbor.HeadIsReadExactly | src/serialization/apta_meta_reader.c:67-149 | a head is accepted if and only if it is the one the writer would write |
| CborCursor.Cursor.Take | src/serialization/apta_meta_reader.c:46-65 | hands out the next bytes and moves past them, or fails and stays |
| CborCursor.Cursor.ReadArgument | src/serialization/apta_meta_reader.c:67-130 | the argument of a head, rejected when a shorter form exists |
| CborCursor.Cursor.ReadHead | src/serialization/apta_meta_reader.c:132-149 | the cursor reads what the specified reader reads |
| CborCursor.Cursor.SkipItem | src/serialization/apta_meta_reader.c:151-235 | the cursor, recursing into arrays, maps and tags, moves and counts as the reader of items does |
| CborItems.EncodingIsSkipped | src/serialization/apta_meta_reader.c:151-235 | for every CBOR item, of any kind and nesting, wherever its deterministic encoding stands and whatever follows: skipping goes past exactly the encoding and counts exactly its items, or is refused, and that exactly beyond nine levels, 256 items or a string of 8192 bytes |
| CborItems.SkippedIsEncoding | src/serialization/apta_meta_reader.c:151-235 | conversely whatever is skipped is the deterministic encoding of an item within those limits |
| Utf8.IsValid | src/core/apta_metadata.c:28-109 | the loop accepts exactly well-formed strings |
| Utf8.AcceptsExactlyEncodings | src/core/apta_metadata.c:28-109 | a byte string is accepted if and only if it is a concatenation of encodings of Unicode scalar values (section 4 of RFC 3629) |
| Utf8.DecompositionIsUnique | src/core/apta_metadata.c:28-109 | that decomposition is unique |
| Meta.TotalAlwaysFits | src/core/apta_metadata.c:195-203 | the check of the summed sizes never fires: the single limits already imply it |
| MetaCodec.MeasurePayload | src/serialization/apta_meta_writer.c:170-224 | the measured size is the size of what will be written |
| MetaCodec.WritePayload | src/serialization/apta_meta_writer.c:296-371 | fills exactly the measured bytes with the deterministic encoding |
| MetaCodec.ParsePayload | src/serialization/apta_meta_reader.c:279-387 | the loop reads what the specified reader reads: ascending keys, unknown ones skipped, nothing left over |
| Meta.WrittenIsRead | src/serialization/apta_meta_reader.c:279-387 | reading what was written gives every field back, no unknown key |
| Meta.ViewRoundTrip | src/serialization/apta_meta_writer.c:138-371 | every field of a valid view comes back; a creation time given without its flag is not written and comes back as 0 |
| Meta.PayloadIsInjective | src/serialization/apta_meta_writer.c:296-371 | different fields are written as different bytes |
| Meta.ReadIsWritten | src/serialization/apta_meta_reader.c:279-387 | an accepted payload with known keys only is re-encoded byte for byte |
| Meta.ReaderAcceptsWriter | src/serialization/apta_meta_reader.c:279-387 | without unknown keys the reader accepts exactly the writer's outputs |
| MetaItems.ReadsExactlyMaps | src/serialization/apta_meta_reader.c:279-387 | for every byte string: it is accepted, with these fields and this number of unknown keys, if and only if it is a map of at most 64 strictly ascending keys whose known keys have values of their kind and size and whose unknown keys have any items within the skipping limits, 256 in all, and those are its values |
| MetaItems.MapIsOneItem | src/serialization/apta_meta_reader.c:279-387 | such a payload is the deterministic encoding of one CBOR map |
| MetaItems.ValidExactlyWithValidTexts | src/core/apta_metadata.c:111-209 | what was read passes the later check of the metadata exactly when every text under a known key is well-formed; texts under unknown keys are not looked at |
| Crc32c.Compute | src/serialization/apta_crc32c.c:4-25 | the nested loops compute the bit-serial checksum |
| Crc32c.PolynomialIs | src/serialization/apta_crc32c.c:11-21 | the constant is the reflected Castagnoli polynomial of section 12.1 of RFC 3720 |
| Crc32c.BitStepIsInjective | src/serialization/apta_crc32c.c:16-20 | one round is a bijection on the register |
| Crc32c.FeedIsOneXor | src/serialization/apta_crc32c.c:13-21 | up to four bytes fed one by one act as one exclusive or |
| Crc32c.ChecksumOfLetter | src/serialization/apta_crc32c.c:4-25 | the checksum of the letter a is the published one: start value, bit order, polynomial and final inversion together |
| Crc32c.ShortBurstIsNoticed | src/serialization/apta_crc32c.c:4-25 | equally long buffers that differ only within four consecutive bytes never have the same checksum |
| ContainerCodec.LayOut | src/serialization/apta_s4_writer.c:154-222 | aligned, disjoint places behind the moved container, or no layout exactly when 64 bits do not suffice |
| ContainerCodec.BumpOffsets | src/serialization/apta_s4_writer.c:410-416 | every old entry's offset grows by the gap, all else stays |
| ContainerCodec.Append | src/serialization/apta_s4_writer.c:333-468 | payloads moved up, entries bumped, sections and directory appended, size and header checksum renewed; a failure leaves the buffer alone |
| ContainerMeaning.EarlierSectionIsKept | src/serialization/apta_s4_writer.c:333-468 | an earlier section keeps its bytes, checksum and alignment at the shifted offset |
| ContainerMeaning.NewSectionIsFound | src/serialization/apta_s4_writer.c:295-311 | a new section has a complete entry and its payload, at an 8-aligned offset |
| ContainerMeaning.ExtendedIsWellFormed | src/serialization/apta_meta_writer.c:395-531 | appending sections to a container gives a container: size field, header checksum, every entry |
| ContainerAnswers.ContainersAreReadable | src/serialization/apta_s4_reader.c:94-145 | in a container every entry of version 1 with clear reserved fields is one the strict reader accepts, its payload aligned and behind the directory |
| ContainerAnswers.LayoutIsTight | src/serialization/apta_s4_writer.c:154-222 | each new section starts at the first multiple of eight behind the one before it |
| ContainerReader.FindSection | src/serialization/apta_meta_reader.c:389-430 | the loop over the directory finds what the scan for one name specifies |
| ContainerReader.FindSections | src/serialization/apta_s4_reader.c:94-145 | one pass for TEMP and LGRD; it stops at the first error and refuses the second without the first |
| ContainerReader.PairIsTwoScans | src/serialization/apta_s4_reader.c:94-145 | that pass finds what two passes would, and is refused exactly when one of them fails, with its error |
| ContainerReader.OnlyOneIsFound | src/serialization/apta_meta_reader.c:389-430 | a name that occurs once is found there, a repeated one is an error |
| ContainerReader.FoundIsThere | src/serialization/apta_meta_reader.c:389-430 | whatever is found carries the name, passed the checks and has no namesake |
| ContainerAnswers.HeaderOnDisk | src/serialization/apta_s4_writer.c:461-464 | where a container keeps its section count, the place of its directory, its size and the checksum of its header, byte by byte |
| ContainerAnswers.EntryOnDisk | src/serialization/apta_s4_writer.c:295-311 | and where an entry keeps its eight fields |
| ContainerAnswers.FirstDecides | src/serialization/apta_s4_reader.c:94-145 | the first entry with a name decides its lookup: its own failure is the answer, and if it has none a namesake behind it is corruption |
| ContainerAnswers.MissingExactly | src/serialization/apta_meta_reader.c:389-430 | a name is missing exactly when no entry carries it |
| ContainerAnswers.StrictFindsExactly | src/serialization/apta_s4_reader.c:94-145 | a TEMP or LGRD section is found at a place if and only if exactly one entry carries the name and that entry is version 1, clear in its reserved fields, of one size, inside the file, with the right checksum, and has its payload there |
| ContainerAnswers.PlainAcceptsExactly | src/serialization/apta_meta_reader.c:389-430 | the META reader accepts an entry exactly when it is version 1 and inside the buffer; another version is unsupported, the rest corrupt |
| ContainerAnswers.PairAnswers | src/serialization/apta_s4_reader.c:94-145 | the reader of two names accepts a directory exactly when neither lookup fails and LGRD does not stand alone |
| ContainerReader.AppendedIsFound | src/serialization/apta_s4_reader.c:74-145 | both readers find an appended section, and the bytes they get are its payload |
| ContainerReader.EarlierIsStillFound | src/serialization/apta_meta_reader.c:389-430 | what was found before an append is found after it, with the same bytes |
| S4Payloads.CandidatesComeBack | src/serialization/apta_s4_reader.c:200-248 | written candidates are read back exactly when they are ranked with known relations |
| S4Payloads.TempComesBack | src/serialization/apta_s4_reader.c:147-248 | a written TEMP section comes back unchanged if and only if its candidates are ranked and its state is allowed |
| S4Payloads.RisingScoresAreRefused | src/serialization/apta_s4_reader.c:200-248 | a section the writer writes and the reader refuses: two candidates with rising scores |
| S4Payloads.GridComesBack | src/serialization/apta_s4_reader.c:250-369 | a written LGRD section comes back unchanged if and only if its segment covers the range, has the selected tempo, and states are allowed |
| S4Payloads.TempWidths | src/serialization/apta_s4_writer.c:224-258 | the sections' fixed sizes |
| S4Payloads.GridWidth | src/serialization/apta_s4_writer.c:260-293 | likewise for the local grid |
| S4Exact.TempIsReadExactly | src/serialization/apta_s4_reader.c:147-248 | for every byte string: it is read as this TEMP section if and only if it is that section, every field sound, scores never rising, with anything in the reserved fields, or zeros when the reader is strict |
| S4Exact.GridIsReadExactly | src/serialization/apta_s4_reader.c:250-369 | for every byte string: it is read as this LGRD section if and only if it is that section, every field sound, one segment over the applicable range at the selected tempo |
| S4Exact.ResultFormatIsExact | src/serialization/apta_s4_writer.c:39-76 | in the format of result files every field is the digits of the number it is read as, so both hold of result files |
| S4Exact.SoundIsWritable | src/serialization/apta_s4_writer.c:87-152 | whatever the reader accepts passes the writer's checks |
| ResultFile.FileIsReadBack | src/serialization/apta_s4_writer.c:333-468 | the whole chain: META, then TEMP and LGRD, all three payloads read back from the final bytes, which are a container |
| ResultFile.MetadataComesBack | src/serialization/apta_meta_reader.c:432-514 | metadata written first comes back from the final file |
| ResultFile.TempoComesBack | src/serialization/apta_s4_reader.c:371-444 | so does the tempo, exactly under the reader's rules |
| ResultFile.LocalGridComesBack | src/serialization/apta_s4_reader.c:371-444 | and the local grid |
| FileDamage.DamagedSectionIsRefused | src/serialization/apta_s4_reader.c:128-135 | with CRC32C, a section found before is refused as corrupt once up to four neighbouring bytes of its payload differ |
| FileDamage.WrittenFileIsGuarded | src/serialization/apta_s4_reader.c:74-145 | the whole chain: the reader of TEMP and LGRD accepts the file written, and refuses it with such damage in either payload |
| FileDamage.DamagedHeaderIsNoContainer | src/serialization/apta_meta_writer.c:525-527 | such damage in the header leaves no container |
| FileDamage.DamagedPayloadIsNoContainer | src/serialization/apta_meta_writer.c:513-523 | nor does it in any payload, META's included |
| Lifecycle.Session.Transition | src/core/apta_session_lifecycle.c:90-117 | stores the new state, publishes, and takes it back if that failed |
| Lifecycle.Session.Push | src/core/apta_session_source.c:126-181 | gates, validates, queues and activates as specified |
| Lifecycle.Session.SignalEndOfInput | src/core/apta_session_source.c:183-247 | sets the end, drains, and restores the three fields if that failed |
| Lifecycle.Session.Pull | src/core/apta_session_pull.c:24-165 | asks the source and drives ACTIVE, DRAINING and FAILED as specified |
| Lifecycle.Session.ProcessHeld | src/core/apta_session_lifecycle.c:247-382 | processing with the lock held, every path giving it back |
| Lifecycle.Session.ProcessCall | src/core/apta_session_pull_activation.c:104-169 | the public call takes the lock, pulls, hands the lock over |
| LifecycleOutcomes.PushIsTakenExactly | src/core/apta_session_source.c:126-181 | a push succeeds exactly when the session takes pushes and is open, the block has frames, fits 64 bits, lies in the track as far as known and has its planes, and nothing on the way fails; then the session is active, and knows how far it was fed |
| LifecycleOutcomes.PushRefusalIs | src/core/apta_session_source.c:126-181 | when publishing and queueing would have worked, a refused push changes nothing, and each of its four errors has its exact condition |
| LifecycleOutcomes.EndIsAcceptedExactly | src/core/apta_session_source.c:183-247 | an end is accepted exactly when it was signalled before, or the session is open, the end agrees with the known length and everything taken in, and the changes of state are published; then the session drains towards it |
| LifecycleOutcomes.EndRefusalIs | src/core/apta_session_source.c:183-247 | else it changes nothing: conflict exactly when the end disagrees, invalid state exactly when it agrees but the session is not open |
| LifecycleOutcomes.EndErrorIs | src/core/apta_session_source.c:183-247 | when a change of state on the way cannot be published its error is the answer, and the session is as it was, or active once that was published |
| LifecycleOutcomes.EndNeedsPushMode | src/core/apta_session_source.c:249-264 | only a session that is pushed takes an end of input from its caller |
| LifecycleOutcomes.SourceIsTakenExactly | src/core/apta_session_source.c:77-124 | a source is taken exactly by a pulling session before it starts, if it does not contradict a known length |
| LifecycleOutcomes.FramesWantedAre | src/core/apta_session_pull.c:80-97 | the source is asked for as much as was requested but no more than the budget, and for nothing when that is empty or beyond 32 bits |
| LifecycleOutcomes.PulledBlockIsTakenExactly | src/core/apta_session_pull.c:120-165 | a pulled block is taken in exactly when it answers what was asked, makes sense, and nothing on the way fails; one that does not fails the session |
| LifecycleOutcomes.OnlyRoomIsForgiven | src/core/apta_session_pull.c:154-161 | of the errors on the way only running out of slots, memory or limits leaves the session alive |
| LifecycleOutcomes.OnlyRoomIsForgivenAtStart | src/core/apta_session_pull.c:134-161 | the same of the activation the first block needs |
| LifecycleOutcomes.OtherReadingsAre | src/core/apta_session_pull.c:106-122 | the source's other answers: wait, end at the place asked for unless that contradicts the known length, failure |
| LifecycleOutcomes.WithoutAskingPullIs | src/core/apta_session_pull.c:24-97 | what a pull does in every state in which it asks nothing of the source |
| LifecycleOutcomes.GatesAre | src/core/apta_session_pull_activation.c:104-169 | a process call without valid arguments, on a locked session, or behind a pull that failed changes nothing more, and says which |
| LifecycleOutcomes.ProcessCompletesExactly | src/core/apta_session_lifecycle.c:247-382 | a process call completes a session exactly when, after its pull, it is not cancelled, drains, its analysis did not fail and left nothing queued or pending, and the completion is published |
| LifecycleOutcomes.CancelIsObeyed | src/core/apta_session_lifecycle.c:247-408 | a cancel that was asked for is obeyed by the next process call |
| LifecycleOutcomes.CancelIsReported | src/core/apta_session_lifecycle.c:247-382 | a cancelled session that has not ended ends as cancelled exactly if that can be published; one that has ended stays |
| LifecycleOutcomes.EndIsReported | src/core/apta_session_lifecycle.c:247-382 | an ended session stays as it is, and the call says how it ended |
| LifecycleOutcomes.WorkIsReported | src/core/apta_session_lifecycle.c:247-382 | what it reports and keeps when it only worked on the queue |
| LifecycleOutcomes.UnpublishedCompletionIs | src/core/apta_session_lifecycle.c:247-382 | if only the publication of the completion is missing its error is the answer, and the work is kept |
| LifecycleOutcomes.NewSessionAsks | src/core/apta_session_pull.c:24-104 | a new pulling session asks its source for the first stretch that is wanted |
| LifecycleOutcomes.FedSessionCompletes | src/core/apta_session_lifecycle.c:247-382 | a pushed session that is fed any sensible blocks, told an end that agrees with them and analysed until its queue is empty completes, with four results besides those of the analysis |
| Lifecycle.RefusedRunStays | src/core/apta_session_lifecycle.c:90-117 | over every run in which no change of state can be published none persists, and only the analysis moves the generation |
| Lifecycle.FailedEndRestoresFields | src/core/apta_session_source.c:183-247 | a failed end of input leaves all three saved fields as they were |
| Lifecycle.CallAdvances | src/core/apta_session_lifecycle.c:64-117 | every call moves the state only forward, raises the generation by at least one for each change of state on the way, and returns the lock as it found it |
| Lifecycle.RunAdvances | src/core/apta_session_lifecycle.c:64-117 | over every run: only forward, never out of a terminal state, at least one publication for each change of state |
| Lifecycle.CompletedOnlyWhenDone | src/core/apta_session_lifecycle.c:340-382 | of all calls only a process call completes a session: draining after any pull, queue empty, no analysis pending, publication successful |
| Lifecycle.EveryCompletionIsDone | src/core/apta_session_lifecycle.c:340-382 | over every run, a session completed in the end became so by one such call |
| Lifecycle.EverySessionKnowsItsEnd | src/core/apta_session_source.c:126-247 | over every run from creation, a completed session has a signalled end, accepted nothing beyond it, and has an empty queue |
| Lifecycle.ProcessCallAdvances | src/core/apta_session_pull_activation.c:104-169 | the whole process call returns with the lock released on every path that took it |
| Overview.CountSpans | src/core/apta_result_pool_snapshot.c:292-306 | the first pass counts exactly the maximal runs of complete columns |
| Overview.BuildSpans | src/core/apta_result_pool_snapshot.c:335-432 | the second pass writes one span for each run, in order, pointing behind the columns of earlier ones; both passes agree |
| Overview.RunsAreMaximal | src/core/apta_result_pool_snapshot.c:292-306 | runs are non-empty, separated by a missing column, and together hold the complete columns and no others |
| Overview.PassesFit | src/core/apta_result_pool_snapshot.c:308-311 | for sorted, distinct, in-range accumulators neither region is overrun, so that limit never fires |
| Overview.SpansCoverColumns | src/core/apta_result_pool_snapshot.c:335-432 | a frame is covered if and only if it lies in a complete column and before a signalled end |
| Overview.SpansAreInOrder | src/core/apta_result_pool_snapshot.c:335-432 | spans are non-empty, ordered, with a gap between any two |
| Overview.FullyCovered | src/core/apta_result_accessors.c:30-55 | true if and only if no frame of the range is missing |
| Overview.HasCoverage | src/core/apta_result_accessors.c:57-73 | true if and only if some frame of the range is there |
| Overview.RangeState | src/core/apta_result_accessors.c:99-127 | the answer of a range query: invalid, final or stable, partial, unavailable, each exactly when it should be |
| Overview.FullCoverageIsEveryFrame | src/core/apta_result_pool_snapshot.c:443-448 | the test for a stable overview finds exactly those with no frame missing |
| PoolLayout.MultiplySize | src/core/apta_result_pool_layout.c:20-31 | the quotient test rejects exactly the products beyond size_t |
| PoolLayout.Pack | src/core/apta_result_pool_layout.c:52-73 | regions are packed behind one another; fails exactly when a step overflows |
| PoolLayout.CalculateLayout | src/core/apta_result_pool_layout.c:75-290 | invalid, limit and success told apart exactly; success gives a sound layout within the budget |
| PoolLayout.EveryColumnHasRoom | src/core/apta_result_pool_layout.c:103-111 | exactly the columns that begin inside the track have room |
| PoolLayout.AddressIsAligned | src/core/apta_result_pool_layout.c:160-290 | in an aligned pool every region of every slot is aligned for its type |
| PoolLayout.AddressesAreApart | src/core/apta_result_pool_layout.c:160-290 | no two regions of the pool share a byte, and none leaves the pool or touches its control block |
| PoolRoom.FitsExactly | src/core/apta_result_pool_layout.c:160-290 | there is a layout exactly when the columns fit 32 bits, rounding up the slot and the control block stays in range, and both slots with the control block are in range and within the budget: the other running checks add nothing |
| PoolRoom.StartIsFirst | src/core/apta_result_pool_layout.c:52-73 | every region starts at the first aligned place behind the ones before it |
| PoolRoom.FeaturesHaveRoom | src/core/apta_result_pool_layout.c:114-250 | every requested feature has room for all it can publish, one not requested takes none |
| PoolRoom.OverviewHasRoom | src/core/apta_result_pool_layout.c:95-125 | whatever columns of the track are complete, the spans and columns packed from them fit their two regions |
| Memory.RefusalHasCause | src/core/apta_memory.c:86-88 | in every interleaving, a thread that is refused had been in the loop at a moment when live blocks and bytes in flight left no room for its request |
| Memory.FailedSwapHasRival | src/core/apta_memory.c:90-98 | a swap that fails, and not spuriously, fails because another thread moved the counter since the value was seen |
| Memory.AloneIsServedIfRoom | src/core/apta_memory.c:63-101 | left alone, a thread gets its reservation exactly when there is no limit or room below it, for one byte when it asks for none, and otherwise changes nothing |
| Memory.GrantDecides | src/core/apta_memory.c:137-160 | what the host allocator grants becomes a block of the reserved size, what it refuses is taken back from the counter |
| Memory.FreeGivesBack | src/core/apta_memory.c:171-209 | freeing gives back exactly what the block holds, once |
| Memory.StepKeepsBalance | src/core/apta_memory.c:63-209 | each atomic step keeps the counter equal to live blocks plus reservations and frees in flight |
| Memory.EveryRunIsBalanced | src/core/apta_memory.c:63-209 | so does every interleaving of any number of threads, and a non-zero limit is never exceeded |
| Memory.QuietCounterIsLive | src/core/apta_memory.c:171-209 | with no thread inside a call the counter is the live blocks alone, zero when all were freed |
| Memory.PayloadIsInside | src/core/apta_memory.c:103-169 | the returned address is aligned, behind its header, and the payload ends inside the memory obtained |

## Left out

- Publication of results on the heap, with its reference count per result and the context's result counter: the pooled form is the harder one.
- Weak memory order: atomics are sequentially consistent steps.
- Floating point: peaks, RMS, bands, flux and the estimator's numeric quality; flux is a real-valued function of energies.
- The FNV signature of a revision is an arbitrary function of the grid: collisions are no claim.
- Host-applied grid revisions (`apta_session_apply_grid_revision`): the beat counter is proved for the segments they allow, the call itself is not modelled.
- The waveform pipeline, detail tiles and their sort, seeding from an earlier result.
- The base container (WOVR, WDTL) and the S6 sections: any well-formed base container stands for the first; for the second only the reader's acceptance of segments, beats and revision is modelled.
- Struct sizes, versions, null pointers and symbol-renaming wrappers: one-branch facts.
- WorkspaceSize.PredictedBufferServesChargedRun: each charged size serves one request. A session that queues a second PCM node while the first is held, or stores new metadata before the old is released, is outside; `WorkspaceReuse` proves what reuse is free and shows an input where it is not.
- GridBeats.GenerateBeats: requires that rounding the first beat up stays in 64 bits, as `GlobalGridSession.AnchorsNeedNoAligning` proves of every refresh; segments whose rounding wraps are not modelled.
- Workspace.Arena.Allocate: the sum of header, prefix and padded size is not wrapped, because no request the session makes comes within a header of the largest size.
- Memory.EveryRunIsBalanced: without a limit the counter is not wrapped at the largest size, because the live blocks would exceed the address space.
- MetaItems.ReadsExactlyMaps: the copy of the fields into the result, its allocation limit and the other sections of the base container's reader are not modelled.
- ContainerReader.FindSections: the header checks in front of the loop, and the rules of the base container's reader; `FileDamage` states what the checksums it tests would catch.
- Meta.WrittenIsRead: speaks of fields; the copy into one storage block of the session is not modelled.
- Overview.BuildSpans: columns are counted and placed, their quantised contents are not modelled; frames per column enter as the function `AxisOf`.
- Adapters, command-line tools, examples, packaging: input, output and foreign calls.
