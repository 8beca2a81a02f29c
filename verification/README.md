# Verified models of Fireweed's executable specifications

Fireweed keeps a set of finite executable specifications of its queue protocols (`scripts/formal/`), the
explorer that checks them, and a dependency-boundary checker for its workspace (`scripts/ci/`). The explorer
settles every claim for a few callers, groups or epochs at a time. This project models the explorer and the
specifications themselves in Dafny and proves the claims for any number of them: the search bounds of the
specifications are dropped, their protocol guards are kept, and only the fault-free behaviour is modelled. One
claim needs a bound: the condition groups' separately written expectation tests the lease for the exact expiry
only, so it and the planner part ways once the clock may pass that moment. The model lets the clock run, keeps
both as they are, gives the run on which they differ and proves when exactly they do.

| files | what they model |
|---|---|
| `Options`, `Ordering`, `Graphs`, `Traces` | optional values, sorted enumeration, paths and reachability, search trees |
| `StrongComponents`, `FairLasso`, `Explorer` | the explorer: Kosaraju components, fair lassos, the breadth-first campaign |
| `DependencyBoundaries` | the workspace boundary check with its iterative cycle detection |
| `Publication`, `PublicationSafety`, `PublicationTheorems` | API-007 conditional publication: submissions, resolution, replay, projection and authority loss |
| `Coordinator`, `CoordinatorGate`, `CoordinatorRefinement`, `CoordinatorTheorems`, `CoordinatorAuthority` | the native commit coordinator and its independent event interpreter |
| `SourceBatch`, `SourceBatchReference`, `SourceBatchPlanning`, `SourceBatchMachine`, `SourceBatchSearch`, `SourceBatchOracle`, `SourceBatchTrack`, `SourceBatchTheorems` | speculative batch composition through a lazily loaded owner index, against the relational reference |
| `OriginalBatch`, `OriginalBatchOracle`, `OriginalBatchRefinement`, `OriginalBatchAnswers`, `OriginalBatchTheorems`, `OriginalBatchReads` | batch resolution of originals, against the positional reference |
| `Recovery`, `Lifecycle`, `Batching`, `Handoff`, `Conditions` | ownership and recovery; leases, receipts and item keys; batched claims; same-operation handoff; condition groups |

A protocol is a `State`, an `Action` and a partial function from both to the next state; a run is a sequence
of states joined by enabled actions, and every theorem about runs quantifies over all of them. The
coordinator and the two batch machines are deterministic, so their runs need no actions. Where the
specification is itself checked by a second, separately written reference, both are modelled and the theorem
is that they agree; the reference's helpers are written anew, and each carries a proof that it agrees with its
counterpart. Code that works by loops over local lists and dictionaries is modelled by methods with
loops, each tied by its contract to a function that the theorems are about.

## Model

| member | source | states |
|---|---|---|
| `StrongComponents.FinishOrder` | scripts/formal/explorer.py:75-90 | the first pass lists every vertex once, in an order in which whatever reaches a later-finished vertex through finished ones is reached back from it |
| `StrongComponents.Reverse` | scripts/formal/explorer.py:91-94 | the reverse table lists exactly the sources of the edges into each vertex |
| `StrongComponents.CollectedIsClass` | scripts/formal/explorer.py:95-107 | what the second pass gathers from a root is the whole mutual-reachability class of that root |
| `StrongComponents.Components` | scripts/formal/explorer.py:75-107 | for every finite graph closed on its vertices the blocks are a partition into exactly the mutual-reachability classes, none before a class with an edge into it |
| `Traces.Prefix` | scripts/formal/explorer.py:65-72 | following parents back and reversing gives the tree's run from the initial state to the node |
| `FairLasso.Route` | scripts/formal/explorer.py:110-125 | between any two members of a component there is always a route inside it, so the missing-path error is unreachable, and the moves returned are such a route |
| `FairLasso.Witnesses` | scripts/formal/explorer.py:139-150 | a witness is found for every fair label exactly when each is disabled at, or taken inside, the component |
| `FairLasso.CycleHosted` | scripts/formal/explorer.py:135-150 | any fair closed walk lies in one component and makes that component pass the tests of the search |
| `FairLasso.CycleIn` | scripts/formal/explorer.py:135-169 | a component yields a fair cycle exactly when it has an edge inside and a witness for every fair label |
| `FairLasso.FindLasso` | scripts/formal/explorer.py:128-170 | sound and complete: a lasso is returned exactly when some closed walk of the pending, suffix-restricted graph takes or somewhere disables every fair label, and it is one |
| `Explorer.NoShorterViolation` | scripts/formal/explorer.py:27-48 | no run that violates a property is shorter than the breadth-first trace |
| `Explorer.SearchStates` | scripts/formal/explorer.py:21-50 | a finished search lists exactly the reachable states and no reachable step violates; a counterexample is a real run and a shortest one; the limit is reported only if more states are reachable |
| `Explorer.LassoStarves` | scripts/formal/explorer.py:56-61 | a lasso of positions is a reachable weakly fair cycle of the model along which the obligation stays pending |
| `Explorer.NoLassoNothingStarves` | scripts/formal/explorer.py:56-61 | conversely, if there is no lasso of positions then no reachable weakly fair cycle of the model starves the obligation |
| `Explorer.Explore` | scripts/formal/explorer.py:21-62 | a pass means safety and that no fair cycle starves any obligation; every other verdict carries a genuine witness |
| `DependencyBoundaries.CheckEdges` | scripts/ci/check_queue_boundaries.py:93-102 | exactly the forbidden pure and adapter edges and the unrecorded legacy edge are reported |
| `DependencyBoundaries.Traverse` | scripts/ci/check_queue_boundaries.py:105-123 | a package met while active lies on a real cycle; otherwise everything reached is completed in reverse topological order |
| `DependencyBoundaries.OrderedIsAcyclic` | scripts/ci/check_queue_boundaries.py:103-123 | no package of a reverse topological order lies on a cycle |
| `DependencyBoundaries.FindCycles` | scripts/ci/check_queue_boundaries.py:103-123 | some package is reported exactly when the in-workspace graph has a cycle, and every reported one lies on a cycle |
| `DependencyBoundaries.Violations` | scripts/ci/check_queue_boundaries.py:93-124 | the edge findings and the cycle findings together, each sound and complete |
| `PublicationSafety.FreshAtStore` | scripts/formal/api007_models.py:243-252 | a pending submission that still satisfies its head and epoch is its caller's latest and its identity is not yet stored |
| `PublicationSafety.ReprepareKeepsStorage` | scripts/formal/api007_models.py:221-226 | re-preparing after an absent witness of a newer epoch leaves no earlier submission that could still be stored |
| `PublicationSafety.CutTellsOriginal` | scripts/formal/api007_models.py:206-220 | at an applied witness cut that is still the head, a receipt cache that agrees on presence holds the true original |
| `PublicationSafety.StepKeepsInv` | scripts/formal/api007_models.py:148-295 | every action of every configuration keeps the storage and projection invariants |
| `PublicationTheorems.StepIsSound` | scripts/formal/api007_models.py:302-338 | no enabled step breaks acknowledgement, prefix, fence, replay or group soundness |
| `PublicationTheorems.NoRunViolates` | scripts/formal/api007_models.py:302-338 | the same over every step of every run, for any number of background publishers |
| `PublicationTheorems.OriginalIsFixed` | scripts/formal/api007_models.py:243-252 | an identity is stored at most once, and once stored its original body is the same in every later state |
| `PublicationTheorems.ReprepareSupersedes` | scripts/formal/api007_models.py:221-226 | re-preparation makes the caller's former submission superseded |
| `PublicationTheorems.SupersededIsNeverStored` | scripts/formal/api007_models.py:221-252 | a superseded submission is never stored at any later moment, even while the store still holds it pending |
| `PublicationTheorems.AcknowledgedIsDurable` | scripts/formal/api007_models.py:206-220 | whatever was acknowledged is in durable history then and ever after, through lost or invented receipts, resets, crashes and authority loss |
| `PublicationTheorems.ServedShowsAllHistory` | scripts/formal/api007_models.py:255-295 | whenever a read is served, work, workflow, new-work and receipts all equal the full history's |
| `PublicationTheorems.EffectsExact` | scripts/formal/api007_models.py:138-140 | the effects of a history without repetition are its acting frames, each once |
| `CoordinatorGate.PrefixViolation` | scripts/formal/coordinator_gate.py:2-152 | the loop over the event words gives the verdict of the replayed interpreter and its final comparison |
| `CoordinatorRefinement.SelectionAlike` | scripts/formal/coordinator_models.py:271-276 | the coordinator and the interpreter select the same non-empty run of absent positions |
| `CoordinatorRefinement.AnswersAlike` | scripts/formal/coordinator_models.py:264-268 | the assembled answers are the full answer read off the cut alone |
| `CoordinatorRefinement.StepReadsAlike` | scripts/formal/coordinator_models.py:182-291 | the interpreter reads the event of any step into exactly the state the step leads to |
| `CoordinatorRefinement.InterpreterAccepts` | scripts/formal/coordinator_gate.py:2-152 | for every well-formed case the independent interpreter accepts every reachable state |
| `CoordinatorTheorems.StepSpends` | scripts/formal/coordinator_models.py:212-241 | a capture spends one attempt of the contention budget, new knowledge refills it, and every other step comes closer to the next of these |
| `CoordinatorTheorems.Terminates` | scripts/formal/coordinator_models.py:182-291 | every run is a prefix of one of fixed length that ends done, a state that is not done has a next step, and there are at most contention times (members + 1) captures |
| `CoordinatorAuthority.NothingDefiniteAfterSubmission` | scripts/formal/coordinator_models.py:209-211 | in the events of every reachable state, any error after a submission is an unknown outcome |
| `CoordinatorAuthority.PendingWasSubmitted` | scripts/formal/coordinator_models.py:279-284 | the submission in flight is one made earlier in the run, with that cut and those positions |
| `CoordinatorAuthority.ReleaseNeedsNewerEpoch` | scripts/formal/coordinator_models.py:254-261 | a submission with absent members is released only under an actually acquired cut of a strictly newer epoch than the cut it was submitted under |
| `CoordinatorAuthority.AnswersMatchFirstSighting` | scripts/formal/coordinator_models.py:222-268 | returned answers come from one current cut and agree, member by member, with the identity and version first observed at any earlier moment |
| `SourceBatch.LoadProbes` | scripts/formal/source_batch_models.py:243-248 | loading probes one by one, in any order, gives newly probed uniques their starting owners and keeps the rest |
| `SourceBatch.EncodedSizes` | scripts/formal/source_batch_models.py:161-166 | the accumulated inner and outer sizes are the sum over the changed rows and the state |
| `SourceBatchReference.ReferenceHistory` | scripts/formal/source_batch_gate.py:2-36 | the loop over rows, highwaters and counters gives the relational image and outcome after every group |
| `SourceBatchReference.RoundTrip` | scripts/formal/source_batch_gate.py:31-32 | an image turned into a relation and back is unchanged |
| `SourceBatchReference.SizesAgree` | scripts/formal/source_batch_gate.py:38-49 | the accumulated sizes equal those of the canonical write set |
| `SourceBatchPlanning.ProbingKeepsIndex` | scripts/formal/source_batch_models.py:240-248 | after a probe, loaded uniques have their present owners and unloaded ones still have their starting owners |
| `SourceBatchPlanning.OwnerElsewhere` | scripts/formal/source_batch_gate.py:14-16 | some other row holds the unique exactly when the index names an owner other than the key |
| `SourceBatchPlanning.GroupAlike` | scripts/formal/source_batch_models.py:138-159 | planning any group on a partly loaded index gives its relational meaning, keeps uniques unshared and keeps the index right |
| `SourceBatchSearch.RetainsLongest` | scripts/formal/source_batch_models.py:273-284 | the full run is retained if it fits, otherwise the longest proper prefix all of whose prefixes fit |
| `SourceBatchSearch.ChoosePrefix` | scripts/formal/source_batch_gate.py:95-103 | the reference's loop over sizes ends with exactly that prefix and the list of sizes tried |
| `SourceBatchTrack.TrackArrives` | scripts/formal/source_batch_models.py:203-307 | from each place of a script the machine agrees with, one step leads exactly to the next place or to the completed batch |
| `SourceBatchTheorems.PlanningStaysExact` | scripts/formal/source_batch_models.py:235-262 | after any number of groups the image has no shared unique, and the index is exact for what was probed while everything else has its starting owner |
| `SourceBatchTheorems.ReferenceAgrees` | scripts/formal/source_batch_gate.py:72-94 | for every group list and every starting image without a shared unique, probing, planning and sizing agree group by group with the relational history |
| `SourceBatchTheorems.PacksLongestPrefix` | scripts/formal/source_batch_gate.py:92-103 | the packed prefix in terms of the write-set sizes of the relational images, with no monotonicity assumed |
| `SourceBatchTheorems.CompletesAsExpected` | scripts/formal/source_batch_gate.py:51-112 | every run completes within 5 steps per group and 7 more, in a state equal in every component to the reference's |
| `SourceBatchTheorems.SealedExactly` | scripts/formal/source_batch_models.py:285-299 | a sealed record carries exactly the packed prefix's effects, positions and receipts |
| `SourceBatchTheorems.RemainderReplans` | scripts/formal/source_batch_models.py:235-262 | the remainder after any prefix is again a well-formed case that starts from that prefix's image with nothing loaded; probing, planning and sizing it agree with the reference throughout, and the images and outcomes are the unsplit run's from there on |
| `SourceBatchTheorems.RemainderSealed` | scripts/formal/source_batch_models.py:285-299 | a sealed run of the remainder returns exactly the effects, positions and receipts which the same groups have in the unsplit run |
| `SourceBatchTheorems.DrainsUnsplit` | scripts/formal/source_batch_models.py:203-307 | a batch drained record by record, each sealed by a run from the image of the one before, loses and repeats nothing: the last effects, all positions in order and all receipts are the unsplit batch's |
| `OriginalBatch.Where` | scripts/formal/source_original_batch_models.py:215-218 | the selected positions are exactly the flagged ones, ascending |
| `OriginalBatchOracle.VerifyFrame` | scripts/formal/source_original_batch_gate.py:37-49 | the members of a frame are visited in request order and each genuine one is verified before any is converted |
| `OriginalBatchOracle.Reference` | scripts/formal/source_original_batch_gate.py:3-69 | the nested loops give the full word list of the case and the positional answer exactly when it comes to a return |
| `OriginalBatchOracle.PrefixViolation` | scripts/formal/source_original_batch_gate.py:71-109 | the loop over events gives the verdict of the rebuilt books |
| `OriginalBatchRefinement.GenuineMatches` | scripts/formal/source_original_batch_models.py:248-251 | with one receipt for each frame, domain and literal, first match and only candidate are the same test |
| `OriginalBatchRefinement.StepFollows` | scripts/formal/source_original_batch_models.py:198-257 | each step emits the next word the reference expects and leaves the batch where the following one is expected |
| `OriginalBatchAnswers.StepSettles` | scripts/formal/source_original_batch_models.py:214-253 | on the way through the frames every kept value is the positional answer, and members of finished frames are verified and kept |
| `OriginalBatchTheorems.ReturnsFullAnswer` | scripts/formal/source_original_batch_models.py:223-228 | at the return every request has its value, so the lookup cannot fail, and the values are the full positional answer |
| `OriginalBatchTheorems.OracleAccepts` | scripts/formal/source_original_batch_gate.py:71-109 | the independent oracle accepts every reachable state of every case with unique receipts |
| `OriginalBatchTheorems.AnswersOrNothing` | scripts/formal/source_original_batch_models.py:160-257 | the batch ends after exactly the reference words, never gets stuck, and returns the whole reference answer or nothing at all |
| `OriginalBatchReads.ReadsEachFrameOnce` | scripts/formal/source_original_batch_models.py:221-238 | frames read are a prefix of the distinct present offsets in ascending order, all of them on return; every request is classified before the first read |
| `Recovery.StepKeepsInv` | scripts/formal/models.py:58-111 | every step, crashes included, keeps a duplicate-free log with non-decreasing fences, applied prefixes, and at most one session at the current epoch |
| `Recovery.NoRunViolates` | scripts/formal/models.py:113-125 | no reachable edge breaks acknowledgement, prefix or fence, for any number of owners and commands |
| `Recovery.AcknowledgedStaysLogged` | scripts/formal/models.py:85-104 | an acknowledged command keeps its one place in a log that is only appended to |
| `Recovery.SingleHolder` | scripts/formal/models.py:64-77 | at most one session holds the current nonzero epoch, and a confirmed owner's session does |
| `Recovery.WaitingMeansEnabled` | scripts/formal/models.py:106-108 | a published command is applied exactly when its distance is used up, and until then Apply is enabled |
| `Recovery.EventuallyApplied` | scripts/formal/models.py:46-53 | in a stretch without crashes a published command is applied exactly when as many Apply steps were taken as its initial distance |
| `Lifecycle.StepIsSound` | scripts/formal/models.py:222-252 | no step from a state of the invariant breaks a lease, a replay or a key |
| `Lifecycle.NoRunViolates` | scripts/formal/models.py:222-252 | the same over every run, for any number of scopes and requests |
| `Lifecycle.LeasesDisjoint` | scripts/formal/models.py:172-189 | the intervals held by different tokens, with all their renewals, never share a moment |
| `Lifecycle.CompletedOnce` | scripts/formal/models.py:175-181 | at most one completion occurs, by the token that holds the item at that moment |
| `Lifecycle.ItemsBounded` | scripts/formal/models.py:208-217 | items under one key number at most now/3 + 1 and are numbered from one |
| `Lifecycle.RetainedStays` | scripts/formal/models.py:198-220 | a retained receipt keeps its body and a retained key creates nothing until the deadline passes |
| `Lifecycle.PositionFits` | scripts/formal/models.py:194-196 | the flat receipt position of a scope's request lies in the table and is scope times requests plus request |
| `Lifecycle.ScopesIndependent` | scripts/formal/models.py:194-220 | what one scope sees after any run is what it would see alone, with every other scope's pushes left out |
| `Batching.SerialSolved` | scripts/formal/models.py:286-304 | in a serial execution with one priority change the k-th request gets the k-th unit from the front before the change and from the back after it |
| `Batching.FreeIsLeft` | scripts/formal/models.py:286-288 | what reservations and completions leave free is what the serial execution has left |
| `Batching.PlansAreSerial` | scripts/formal/models.py:290-326 | every reachable state's plans, outcomes and tokens are those of the serial execution of its plan order |
| `Batching.SelectionsAreUnits` | scripts/formal/models.py:328-334 | selections are pairwise disjoint whole units in the closed serial form |
| `Batching.LogFollowsOrder` | scripts/formal/models.py:305-317 | the log is always a prefix of plan order, and while anything is planned the next in order can be published |
| `Batching.FreeUnitsAreUnused` | scripts/formal/models.py:335-344 | the optimised availability equals the reference derived from used items |
| `Batching.NoRunViolates` | scripts/formal/models.py:328-347 | no reachable edge overlaps selections, splits a unit, shares a token or strays from the reference |
| `Handoff.StepKeepsInv` | scripts/formal/handoff_models.py:54-102 | a cut at the present head holds exactly the present originals, through races, fences and foreign publications |
| `Handoff.NoRunViolates` | scripts/formal/handoff_models.py:103-119 | no reachable edge breaks the cut, handoff, scope, condition, resolution or fence |
| `Handoff.PublishedOnce` | scripts/formal/handoff_models.py:60-62 | in any run each group is published at most once, whether by the operation or by a racing one |
| `Handoff.AcknowledgedInOrder` | scripts/formal/handoff_models.py:93-98 | acknowledgements are exactly the groups in order, each from a complete prefix at the present head, and the operation ends with all of them or an unknown outcome |
| `Handoff.UnknownOnlyUnfenced` | scripts/formal/handoff_models.py:99-102 | an unknown outcome is returned only for a submitted, absent group whose last recovery acquired no newer fence |
| `Conditions.DecisionExpected` | scripts/formal/condition_models.py:80-111 | planner and expectation agree exactly up to the expiry, or when the token is wrong anyway |
| `Conditions.ViolatesOnlyBeyondExpiry` | scripts/formal/condition_models.py:173-204 | no reachable edge breaks the cut, atomicity, receipt or replay, and one breaks the predicate exactly when it publishes at a time sampled beyond the expiry under the issued token; within the clock's bound nothing is broken |
| `Conditions.ExpectationStopsAtExpiry` | scripts/formal/condition_models.py:97-111 | a run past the expiry on which the expectation calls a stale lease valid, so that the check fails |
| `Conditions.PublishesLiveState` | scripts/formal/condition_models.py:144-166 | comparing epoch and head alone, the cut published on is the entire live metadata |
| `Conditions.OneReceiptDecides` | scripts/formal/condition_models.py:113-171 | over any number of invocations one publication decides: its outcome is the ordered predicate on the live state, every answer replays it or is a conflict, effects happen once or never |
| `Conditions.NothingBeforeReceipt` | scripts/formal/condition_models.py:132-141 | before the publication nothing was answered and nothing happened |

## Left out

- Fault branches and their negative-control tables: they are deliberate mutants of the specifications.
- `check*.py` and the reporting, hashing, provenance and source-capture code of the gates: file input and output and digests.
- Report counters of the explorer (states, edges, frontiers) and the order in which it visits labels and ties.
- Search bounds and one-shot environment flags of the specifications; the models allow any number of each event.
- `domain_models.py`, `lookup_models.py`, `original_models.py`, and `Deadline`, `EligibleAge`, `RecoveryAuthority` and `Admission` in `models.py`: short case splits that would only add easy members.
- `continuation_models.py`, `pack_preparation_models.py`, `pack_publication_models.py`, `source_body_models.py`: tied to named fixtures; the handoff, batch and coordinator models carry the general claims.
- `replay_model.py`, `generate_replay.py`, `run_replay.py` and the Rust crates are not part of this model.
- Package names are numbered by their sorted rank in `DependencyBoundaries`; reading manifests into the graph is not modelled.
- The coordinator interpreter's comparison with a fixture's expected label is not modelled, because the label belongs to the fixture.
- Declared field sets of batch groups are not modelled; the fields phase keeps only its source failure.
- Receipts of a sealed batch record are a multiset; their canonical order is not modelled.
- `SourceBatchTheorems.CompletesAsExpected`: the reference's final state is a function of the relational history; of its loops only the history and the size search are also given as methods.
- A number patch that expects an absent row makes both source versions raise, so well-formed groups exclude it.
- `OriginalBatchTheorems.OracleAccepts`: requires one receipt for each frame, domain and literal, which is what the specification's claim assumes.
- Provider durability, wire encoding, memory accounting and real-time deadlines are assumptions of the specifications and stay so.
