# Verified model of the tracker's decision logic and of the run lifecycle

A Dafny model of the parts of the system that decide something: which
observations of two cameras are one person, which of two co-located people is
drawn, when two tracks get a shared provisional identity, how a stop finds its
session, what a run may become, and where a person is said to stand. Each part
is a set of functions on values with the properties proved about them, and,
where the program changes things in place, a class or a loop whose methods are
proved to do what those functions say.

    dafny verify dfyconfig.toml

| files | what they model |
|---|---|
| `StableSort`, `OneToOnePairing`, `PairingTies` | the one-to-one pairing shared by fusion and coordinator: memoised dynamic program and greedy fallback |
| `Observations` | observations, position grades, the drawn centre |
| `CameraFusion`, `FusionPass`, `FusionProperties`, `FusedPeople`, `FusionPatience` | one fusion cycle and the memory of pairings |
| `DisplayDuplicates`, `DuplicateRulings`, `DuplicateProperties`, `DuplicateRecords`, `DuplicateOrder` | the pass that stops one person being drawn twice |
| `ProvisionalPairs`, `ProvisionalCoordinator`, `ProvisionalProperties`, `ProvisionalOutcomes`, `ProvisionalRuns`, `ProvisionalHolds`, `ProvisionalPruning` | the provisional identity coordinator |
| `CvSupervisor`, `CvSupervisorProperties`, `CvSupervisorStates` | the supervisor's two threads as interleaved steps |
| `RunLifecycle`, `RunStore`, `RunLifecycleProperties`, `RunDecisions` | runs, rows and tombstones under interleaved transactions |
| `LinearAlgebra`, `Metrology`, `MetrologyProperties`, `LeastSquares`, `HeightMemory`, `HeightRules`, `LeanGate`, `SettledHeights` | two-plane metrology, learned heights and who they are learned from |
| `PlaneGeometry`, `Approach`, `MapMotion`, `FootPoint` | the map position filter and the foot-point cascade |

## How to read it

Floating-point numbers are reals; a value that is missing or not finite is an
`Option`. In fusion, duplicate suppression and the coordinator the distance is
a parameter, so what is proved holds for every distance. In the motion
filters, where the triangle inequality matters, distances are compared by
their squares; the metrology residual is kept squared for the same reason, and
the greatest lean allowed, less than 180 degrees, is given by its cosine.
The identity memory of the coordinator answers anything at all; the requests
made of it are recorded. The CV worker's reports, the clock, the answer of a
worker call and a generated run id are parameters of the transactions. Run ids
are modelled already trimmed, camera and track ids as opaque values.

Concurrency is a state machine. For the supervisor each access that a lock or
the interpreter makes atomic is one step, a run is any sequence of steps of
the two threads, the children and the writer of the commands, and a step that
is not possible does nothing, so the lemmas speak of every interleaving. For
the runs each transaction is one step, and a start or an end is two: the
transaction, and the worker's answer with its compensation.

## Where code and documentation part

The model follows the code.

- `suppress_display_duplicates` says a suppressed observation stays reachable
  through the survivor's `suppressed_duplicates` (camera_fusion.py:757-762).
  A keeper that is dropped later takes its list with it (`LostRecord`).
  `AllListedExactly` says exactly when nobody is lost, in terms of which
  duplicate pairs take effect, a matter of the people who come in and the order
  of settlement alone; without working that out, `NobodyBetween` and
  `UnhinderedLoses` say where nobody is and where somebody must be.
- A pair without geometry is meant to rank below every real geometric match
  (camera_fusion.py:346-381). That needs a fusion distance above 0.002 cm,
  because the time tie-break is added on top (`BlindCandidatesCostMost`,
  `BlindCandidateMayCostLess`).
- A fused pair is meant to be broken only after several consecutive frames of
  disagreement (camera_fusion.py:136-147, 477-482). Only a frame in range sets
  the count back: frames with an inferred point, or without a place, neither add
  to it nor clear it, so six measured disagreements of which no two are
  consecutive split a pair (`MixedFramesSplitExactly`), and one inferred point
  may fuse it again at once (`InferredPointMends`).
- Closed runs are not final: a refused stop can put a run that reconcile has
  just closed back to active, and with the worker on another run
  (`ClosedRunsReopenExactly`, `EndedRunReopens`).
- A stop can be lost: for a registered child that lives, exactly when the last
  write of the stop flag before its registration was a start's clearing of it
  and no stop has been carried to the slot since (`ToldExactly`). It takes a
  further start whose clearing comes between (`OvertakenStopIsLost`); that it
  is read in between is not enough (`OvertakingStartMayComeLate`), and without
  it no stop is lost (`NoLostStop`).
- Two external runs are meant not to compete (service.py:353-361), but one
  that has gone quiet may resume beside a newer one (`CompetitionBeginsExactly`,
  `QuietRunResumes`).
- The direction towards the vertical vanishing point is used as the direction
  an upright person points in (three_d_level.py:333-364). It is the opposite
  one whenever raising a point brings it nearer to the camera: by
  `UprightPassesExactly` a camera that looks down, whose vertical vanishing
  point lies below, reads every upright person as leaning by 180 degrees, and
  by `LearnsFromUprightExactly` learns nothing from a frame in which the nose
  or the shoulders are seen (`NothingLearnedLookingDown`). Where neither is
  seen the gate is skipped and knees and hips are learned. The camera of
  `test_three_d_level.py:27-44`, described as looking down, has an optical axis
  that rises, which is why its upright person passes. For a level camera the
  sign of the saved matrix decides (`SavedSignDecides`).

## Model

| member | source | states |
|---|---|---|
| `StableSort.SortBySorted` | edge_tracker/camera_fusion.py:54 | `sorted(...)`: the result is in order of the key |
| `StableSort.EqualKeysKeepOrder` | edge_tracker/camera_fusion.py:54 | `sorted(...)`: of two entries with equal keys the one that sorts first came first |
| `OneToOnePairing.BitAfterSet` | edge_tracker/camera_fusion.py:69-73 | the mask of used right indices holds exactly the indices put into it |
| `OneToOnePairing.SolveOptimal` | edge_tracker/camera_fusion.py:63-77 | from any row and mask the recursion beats every one-to-one set of the candidates still available: more pairs, or as many at no more cost |
| `OneToOnePairing.PairSolver.SolveFrom` | edge_tracker/camera_fusion.py:61-77 | the memoised solver answers every call as the plain recursion does, and its table never holds anything else |
| `OneToOnePairing.GreedyPairs` | edge_tracker/camera_fusion.py:52-59 | the loop over the sorted candidates with its two sets of used endpoints computes the greedy choice |
| `OneToOnePairing.FindBestPairs` | edge_tracker/camera_fusion.py:39-79 | the whole pairing, with the side-swapping call, the memo and the fallback, is the pairing the next rows speak about; the coordinator runs the same algorithm (cross_camera_provisional.py:236-292) |
| `OneToOnePairing.BestPairsMatching` | edge_tracker/camera_fusion.py:39-79 | the result is always a one-to-one set of candidate pairs |
| `OneToOnePairing.BestPairsOptimal` | edge_tracker/camera_fusion.py:39-79 | with at most 18 on the smaller side, no one-to-one set of candidates has more pairs, and none with as many costs less |
| `PairingTies.FirstOfTheBest` | edge_tracker/camera_fusion.py:63-79 | and of several choices that nothing beats it is the first: taking the people of the larger side in order, somebody left alone comes before somebody paired and an earlier partner before a later one |
| `OneToOnePairing.GreedyRejections` | edge_tracker/camera_fusion.py:52-59 | above 18 every candidate is chosen or shares an endpoint with a chosen one that costs less, or as much and came earlier in the list |
| `OneToOnePairing.GreedyHalf` | edge_tracker/camera_fusion.py:52-59 | above 18 the result has at least half the pairs of any one-to-one set of candidates |
| `CameraFusion.SurveyBest` | edge_tracker/camera_fusion.py:254-582 | the pairs chosen in a cycle are one-to-one and each passed the distance, skew and identity gates |
| `FusionPass.Fuser.Examine` | edge_tracker/camera_fusion.py:313-573 | one look at a pair records or clears its violations in place and yields a cost exactly when the pair may be matched |
| `FusionPass.Fuser.SurveyPairs` | edge_tracker/camera_fusion.py:246-581 | the double loop over both cameras collects the keys seen and the candidates, and leaves the memory it should |
| `FusionPass.Fuser.CommitFused` | edge_tracker/camera_fusion.py:585-659 | each chosen pair becomes one person and earns one frame of credit, capped |
| `FusionPass.Fuser.Age` | edge_tracker/camera_fusion.py:100-122 | ageing in any key order: fused keys are fresh, seen ones lose credit, unseen ones age and are forgotten |
| `FusionPass.Fuser.KeepTimed` | edge_tracker/camera_fusion.py:150-205 | the loop over one camera's sightings keeps those with a usable time, a missing point taking the grade with it |
| `FusionPass.Fuser.FuseCameraPoints` | edge_tracker/camera_fusion.py:124-696 | a whole cycle, from the sightings as they arrive, updates the caller-owned memory and returns the people, as the functions the fusion lemmas are about |
| `FusionProperties.FusionConservesPeople` | edge_tracker/camera_fusion.py:150-696 | every sighting with a usable time lands in exactly one person, counted with multiplicity; a person of two has one observation of each of the first two cameras; people are those sightings minus pairs |
| `FusedPeople.CenterBetween` | edge_tracker/fused_person.py:42-96 | two observations of one person are drawn where the better seen point is, or the only one, halfway between two seen equally well, and nowhere without any |
| `FusedPeople.PeopleShowWhatWasSeen` | edge_tracker/camera_fusion.py:588-696 | over a cycle from the sightings: every fused person is so drawn, carries both points and both cameras, the one name and group nobody disputes and the state that follows; everybody else shows just what its own observation says (camera_fusion.py:215-227) |
| `FusionProperties.FusedPairsAgree` | edge_tracker/camera_fusion.py:513-571 | with appearance required both sides of a fused pair carry the same master or the same temporary group, and where groups exclude masters the person keeps the one master |
| `FusionProperties.FusesAsManyAsPossible` | edge_tracker/camera_fusion.py:572-582 | no other one-to-one choice among the admitted candidates fuses more pairs, or as many at less cost |
| `FusionProperties.BlindCandidatesCostMost` | edge_tracker/camera_fusion.py:346-381 | a candidate without geometry costs more than every one with geometry as soon as the fusion distance exceeds 0.002 cm |
| `FusionProperties.BlindCandidateMayCostLess` | edge_tracker/camera_fusion.py:572-573 | and at any distance up to 0.002 cm there is a pair with geometry that costs at least as much as one without |
| `FusionProperties.MemoryStaysBounded` | edge_tracker/camera_fusion.py:100-122 | after any run of cycles a pairing has at most four frames of credit, and its age counts exactly the two-camera cycles since it was last seen, never above 30 |
| `FusionProperties.UnshownIsRemembered` | edge_tracker/camera_fusion.py:100-122 | a pairing that is not shown is remembered unchanged until exactly thirty two-camera cycles have passed since it was last seen |
| `FusionProperties.SplitWithoutFlicker` | edge_tracker/camera_fusion.py:392-409 | a settled pair of measured points whose distance stays in the tolerance band is one person for exactly the first five frames and two from then on |
| `FusionProperties.AgreementFuses` | edge_tracker/camera_fusion.py:477-482 | one frame in range fuses the pair again and forgets its violations |
| `FusionProperties.AgreementSettles` | edge_tracker/camera_fusion.py:638-647 | two frames in range settle a pair from any history, so its patience is earned anew |
| `FusionPatience.CandidateExactly` | edge_tracker/camera_fusion.py:254-582 | in any frame, whoever else is in it, a pair whose key no other shares is a candidate exactly when a rule of distance, time, grades, names and two counters draws it, and at what cost |
| `FusionPatience.CrowdStep` | edge_tracker/camera_fusion.py:254-659 | there it is fused only if that rule draws it, and its credit and violations afterwards are what the rule makes of what was seen and whether it was fused |
| `FusionPatience.DrawnExactly` | edge_tracker/camera_fusion.py:346-482 | over any run of frames that show one pair on its own, whatever they look like and from any memory, a frame is fused exactly when that rule draws it |
| `FusionPatience.MixedFramesSplitExactly` | edge_tracker/camera_fusion.py:392-482 | so a settled pair that is in time and never in range, whatever comes between, has exactly its first five measured disagreements fused, consecutive or not; a frame without a place always is, and one with an inferred point until the sixth, and after it exactly while the pairing has credit for two frames or is vouched for |
| `FusionPatience.InferredPointMends` | edge_tracker/camera_fusion.py:400-409 | the frame with an inferred point right after the one that split the pair fuses it again exactly when it had credit for three frames, or is vouched for |
| `Observations.AuthoritativeMembers` | edge_tracker/fused_person.py:42-68 | the observations that count are exactly the positioned ones than which no other is better seen, measured before inferred before stale before ungraded |
| `Observations.WeightedCenter` | edge_tracker/fused_person.py:70-96 | the accumulating loop computes the weighted centre |
| `Observations.CenterIsMeanOfBest` | edge_tracker/fused_person.py:70-96 | the weights never decide: the drawn point is the plain mean of the observations of the best grade, and a lower grade has no say |
| `DisplayDuplicates.AuthorityIgnoresOrder` | edge_tracker/camera_fusion.py:728-739 | the ruling does not depend on list order, except between people equal in sources, camera and track |
| `DuplicateRulings.RulingExactly` | edge_tracker/camera_fusion.py:698-739 | who stays and why: whoever is better seen; else the only one with a master; else, of one master or none, the one with more sources, the earlier camera, the earlier track, as texts, or the earlier place in the list |
| `DuplicateRulings.NeitherPrevailsExactly` | edge_tracker/camera_fusion.py:721-726 | both are left exactly when they are seen equally well under two different masters |
| `DuplicateRulings.BetterShownExactly` | edge_tracker/fused_person.py:98-107 | one person is better seen than another exactly when a graded point of its is better seen than every point of the other |
| `DuplicateRulings.TextLeMeans` | edge_tracker/camera_fusion.py:728-737 | texts are compared by their first difference, or by which ends first |
| `DuplicateRulings.TrackTextExactly` | edge_tracker/camera_fusion.py:736 | a track number is written with its digits, no leading zero, after a sign where negative |
| `DuplicateRulings.ListedExactly` | edge_tracker/camera_fusion.py:794-831 | the candidate list holds exactly the pairs whom no camera sees both and who carry one master or stand within the limit, each with its kind and distance |
| `DisplayDuplicates.FindingsInOrder` | edge_tracker/camera_fusion.py:788-831 | those too close are settled before those that share a master, among either kind the closest first, and among equals in the order of the list |
| `DisplayDuplicates.CollectFindings` | edge_tracker/camera_fusion.py:795-831 | the double loop and the sort build that list |
| `DisplayDuplicates.SettleFindings` | edge_tracker/camera_fusion.py:833-936 | the loop over the candidates, with its set of suppressed people and its in-place merging, does what the settled pass says |
| `DisplayDuplicates.SuppressDisplayDuplicates` | edge_tracker/camera_fusion.py:741-938 | the whole pass returns the survivors and counts of the function the following rows are about |
| `DuplicateProperties.SurvivorsConflict` | edge_tracker/camera_fusion.py:741-938 | two survivors whom no camera sees both and who share a master or stand within the limit are seen equally well under two different masters, so no master is drawn twice by different cameras |
| `DuplicateProperties.LengthFallsByDrops` | edge_tracker/camera_fusion.py:938 | exactly the suppressed people are missing; the others keep their order and, but for the list of suppressed ones, their fields |
| `DuplicateProperties.SuppressTwice` | edge_tracker/camera_fusion.py:741-938 | a second pass over the survivors changes nothing |
| `DuplicateProperties.EverybodyRepresented` | edge_tracker/camera_fusion.py:833-938 | from every person a chain of keepers, each of whom prevails over the one before, leads to a survivor |
| `DuplicateRecords.TakenOverRightly` | edge_tracker/camera_fusion.py:833-936 | over a whole pass everybody dropped is a duplicate of its keeper, and the keeper prevails over it |
| `DuplicateRecords.MasterStays` | edge_tracker/camera_fusion.py:698-726 | so a master none of whose people is a duplicate of somebody better seen is on some survivor |
| `DuplicateOrder.FindingsCorrespond` | edge_tracker/camera_fusion.py:788-831 | with a symmetric distance and no ties, the people in any other order have the same duplicates, settled in the same order |
| `DuplicateOrder.OrderDecidesNothing` | edge_tracker/camera_fusion.py:833-938 | and then the same people are dropped, the same left with the same lists and as many conflicts unresolved; a tie is two duplicate pairs equal in kind and distance, or two duplicates equal in rank, identity, sources, camera and track |
| `DuplicateOrder.SameSurvivors` | edge_tracker/camera_fusion.py:741-938 | so the pass returns the same people, counted with multiplicity |
| `DuplicateRecords.ListsExactly` | edge_tracker/camera_fusion.py:920-936 | the list of every survivor grows by one record per person dropped in its favour |
| `DuplicateRecords.RecordDescribes` | edge_tracker/camera_fusion.py:862-919 | such a record names the camera and track of the first observation, the master, the state, the place, the best grade and the reason |
| `DuplicateRecords.EffectExactly` | edge_tracker/camera_fusion.py:833-861 | which findings take effect, read off the people alone: those in which one prevails and of whose two people no earlier one that takes effect has removed either |
| `DuplicateRecords.SettledExactly` | edge_tracker/camera_fusion.py:833-936 | the pass drops exactly the losers of the findings that take effect, in that order |
| `DuplicateRecords.UnresolvedExactly` | edge_tracker/camera_fusion.py:848-866 | and counts as unresolved exactly the findings that rule for nobody and whose two people are both still there |
| `DuplicateRecords.AllListedExactly` | edge_tracker/camera_fusion.py:757-762 | the survivors' lists name everybody dropped if and only if no finding that takes effect removes the keeper of an earlier one that does; otherwise they name fewer |
| `DuplicateRecords.NobodyBetween` | edge_tracker/camera_fusion.py:757-762 | they name everybody wherever nobody beats one duplicate and is beaten by another that is settled later |
| `DuplicateRecords.UnhinderedLoses` | edge_tracker/camera_fusion.py:920-936 | and a record is lost wherever somebody does, none of the first two loses to anybody sooner, and the last loses to nobody sooner than it beats the second |
| `DuplicateRecords.LostRecord` | edge_tracker/camera_fusion.py:757-762 | three concrete views in which a dropped person is on no survivor's list, so the promise that it stays reachable is false |
| `ProvisionalCoordinator.Coordinator.constructor` | edge_tracker/cross_camera_provisional.py:18-57 | a new coordinator has consistent clamped limits and no history |
| `ProvisionalCoordinator.Coordinator.NormalizeObservations` | edge_tracker/cross_camera_provisional.py:173-200 | the loop over one stream keeps the usable observations; an absent camera is filled in, an empty one makes the observation unusable |
| `ProvisionalCoordinator.Coordinator.ReleasePairHold` | edge_tracker/cross_camera_provisional.py:65-83 | releasing removes the hold and asks the memory to release it, once |
| `ProvisionalCoordinator.Coordinator.MarkPairValidForHold` | edge_tracker/cross_camera_provisional.py:85-117 | a valid pair gets a hold or has its grace cleared |
| `ProvisionalCoordinator.Coordinator.MarkPairFailedForHold` | edge_tracker/cross_camera_provisional.py:119-140 | a contradicted pair loses its hold at once, any other failure starts the grace |
| `ProvisionalCoordinator.Coordinator.ExpirePairHolds` | edge_tracker/cross_camera_provisional.py:142-152 | in any key order exactly the holds over the cap or past their grace are released |
| `ProvisionalCoordinator.Coordinator.MarkActiveHoldsUnobserved` | edge_tracker/cross_camera_provisional.py:154-157 | exactly the holds whose pair was not evaluated start their grace |
| `ProvisionalCoordinator.Coordinator.ScreenAll` | edge_tracker/cross_camera_provisional.py:294-360 | the double loop rejects pairs, which reaches their holds at once, and collects the candidates |
| `ProvisionalCoordinator.Coordinator.DecideAll` | edge_tracker/cross_camera_provisional.py:361-399 | candidates that lost the pairing or are ambiguous fail, the others are accepted, in order |
| `ProvisionalCoordinator.Coordinator.AdvanceStreak` | edge_tracker/cross_camera_provisional.py:498-530 | the stored streak grows by one, or starts again after a miss or a disagreement of motion |
| `ProvisionalCoordinator.Coordinator.Accepted` | edge_tracker/cross_camera_provisional.py:581-635 | an accepted pair advances its streak, then its hold, and requests a shared identity when due |
| `ProvisionalCoordinator.Coordinator.PruneStreaks` | edge_tracker/cross_camera_provisional.py:532-541 | exactly the streaks not touched for the larger of the two limits are forgotten |
| `ProvisionalCoordinator.Coordinator.Update` | edge_tracker/cross_camera_provisional.py:543-722 | a whole update, from the streams as they arrive, does to the five fields what the update function does to the state they stand for |
| `ProvisionalProperties.OneEventPerPair` | edge_tracker/cross_camera_provisional.py:294-399 | with distinct tracks every evaluated pair is rejected, failed or accepted exactly once |
| `ProvisionalProperties.AcceptedIsUnambiguous` | edge_tracker/cross_camera_provisional.py:361-399 | an accepted pair passed every gate, is in the best pairing, and beats every other candidate for either person by the full margin |
| `ProvisionalOutcomes.EventsExactly` | edge_tracker/cross_camera_provisional.py:294-399 | what becomes of every pair of an update and why: different masters, then time, then distance, then whether the best pairing has it, then whether another pair of either track that passes the gates is less than a margin further apart; and nothing else happens |
| `ProvisionalOutcomes.CandidatesExactly` | edge_tracker/cross_camera_provisional.py:302-360 | the candidates are exactly the pairs that pass the gates, each at its distance |
| `ProvisionalOutcomes.BestExactly` | edge_tracker/cross_camera_provisional.py:236-292 | with at most 18 on the smaller side no other one-to-one choice of pairs that pass the gates has more pairs, or as many less far apart |
| `ProvisionalOutcomes.NormalizedExactly` | edge_tracker/cross_camera_provisional.py:159-200 | a stream comes to exactly its usable observations, in order, each with its own camera or else that of the stream |
| `ProvisionalOutcomes.FirstTwoPaired` | edge_tracker/cross_camera_provisional.py:543-580 | an update pairs the usable observations of the first two streams, and with fewer streams nothing |
| `ProvisionalOutcomes.ClampExactly` | edge_tracker/cross_camera_provisional.py:18-57 | the constructor raises every limit to its least value and no further; without one the disagreement limit is half the distance, at least 20 |
| `ProvisionalProperties.ReportsDistinct` | edge_tracker/cross_camera_provisional.py:159-200 | tracks are distinct in an update whose streams each report every usable track once |
| `ProvisionalRuns.TrueStreakIsLongest` | edge_tracker/cross_camera_provisional.py:498-523 | the counter of a history is the longest run of latest updates that accepted the pair, both cameras seeing it move the same way up to the limit, beginning anew with one that accepted it twice |
| `ProvisionalRuns.AgainRestarts` | edge_tracker/cross_camera_provisional.py:500-521 | a pair accepted a second time in one update, as a camera reports one track twice, is never contradicted and its streak is one again |
| `ProvisionalRuns.StreaksAreTrue` | edge_tracker/cross_camera_provisional.py:498-541 | over any run, repeated tracks included, every stored streak is that counter for the history up to the latest update that accepted the pair, and every update that accepts it stores one |
| `ProvisionalRuns.CreationsExactlyWhenDue` | edge_tracker/cross_camera_provisional.py:580-619 | over any run a shared identity is requested exactly after an update that first accepted the pair without contradiction or shared identity with a long enough true streak, or accepted it again without one when a single update is all that is required |
| `ProvisionalRuns.NoCreationBeforeStreak` | edge_tracker/cross_camera_provisional.py:610-619 | so never before the required number of consecutive agreeing updates |
| `ProvisionalRuns.DivergingTracksStayApart` | edge_tracker/cross_camera_provisional.py:500-521 | two tracks whose displacements differ by more than the limit whenever two updates in a row accept them never get beyond a streak of one, and nothing is requested for them where more than one update is required |
| `ProvisionalRuns.StoredExactly` | edge_tracker/cross_camera_provisional.py:532-541 | over any run a streak is stored exactly while one of the latest updates, as many as confirm a place, accepted the pair |
| `ProvisionalHolds.HoldsStayBounded` | edge_tracker/cross_camera_provisional.py:85-157 | after every update of any run, repeated tracks included, each hold is under the cap, and was either confirmed in it or has its grace since the update right after the last confirmation and not run out |
| `ProvisionalHolds.HoldBeginsExactly` | edge_tracker/cross_camera_provisional.py:543-635 | in any update, repeated tracks included, a pair without a hold gets one exactly when it is accepted and nothing was against holding it the last time it was: no contradicting motion, no shared identity, no group due, all but the memory's answer judged by the state before the update |
| `ProvisionalHolds.HoldEndsExactly` | edge_tracker/cross_camera_provisional.py:85-157 | in any update, repeated tracks included, a held pair is held no more exactly when it was accepted with something against holding it the last time; when, held throughout, it has reached the cap; or when it was not accepted and a failure contradicted it or its grace has run out |
| `ProvisionalHolds.OneEventDecides` | edge_tracker/cross_camera_provisional.py:294-399 | with distinct tracks all of that is up to the one event of the pair, whatever the order of the others |
| `ProvisionalHolds.HoldsAlwaysMatch` | edge_tracker/cross_camera_provisional.py:59-83 | the holds the memory was asked for and not yet asked to release are exactly the coordinator's, each once |
| `ProvisionalPruning.PruningUnobservable` | edge_tracker/cross_camera_provisional.py:532-541 | a coordinator that never prunes has the same holds, requests and live streaks after every run |
| `CvSupervisorProperties.DutyMeans` | edge_tracker/cv_worker.py:212-237 | what is owed to a start is a matter of positions in the log of commands read and children registered |
| `CvSupervisorProperties.RegisterKeeps` | edge_tracker/cv_worker.py:330-333 | filling the slot and consulting the flag under one lock keeps the invariant |
| `CvSupervisorProperties.CarriedMeans` | edge_tracker/cv_worker.py:223-230 | and so is whether such a stop has reached the child slot |
| `CvSupervisorProperties.FlagMeans` | edge_tracker/cv_worker.py:219-223 | whether the stop flag is up is a matter of its last write |
| `CvSupervisorProperties.DueMeans` | edge_tracker/cv_worker.py:219-231 | and whether a child is due its stop a matter of that write before its registration and of the stops carried since |
| `CvSupervisorProperties.ToldExactly` | edge_tracker/cv_worker.py:219-235 | in every interleaving a living child has been told exactly when the flag's last write before its registration set it, or a stop has been carried to the slot since; so this is exactly when a stop is lost |
| `CvSupervisorProperties.NoLostStop` | edge_tracker/cv_worker.py:219-235 | in particular a stop read after a start, with no further start read before its child is registered, means, once the reader has carried it to the slot, that the child was never spawned, has exited or was told; the one exception, between its spawn and its registration, the next row ends |
| `CvSupervisorProperties.RegistrationTells` | edge_tracker/cv_worker.py:330-333 | a living child is told in the step that registers it exactly when the flag is up, and it is for a stop carried before with no further start read |
| `CvSupervisorProperties.StopReachesChild` | edge_tracker/cv_worker.py:227-230 | when the reader releases the child lock a registered child is told or gone |
| `CvSupervisorProperties.NoInventedStop` | edge_tracker/cv_worker.py:219-230 | a child is told only if a stop was read after its start |
| `CvSupervisorProperties.EveryStartHasOnePlace` | edge_tracker/cv_worker.py:254-338 | every start read is in exactly one of five places: the reader's hand, the queue, the main loop's hand, spawned or refused |
| `CvSupervisorStates.StartsInOrder` | edge_tracker/cv_worker.py:254-262 | in every interleaving starts are served in the order in which they are read: none is taken, spawned or refused while an earlier one waits |
| `CvSupervisorStates.RefusedExactly` | edge_tracker/cv_worker.py:261-338 | a start is refused if and only if some step looked at it when the state was not ready, found it without a run id, or failed to make its log or its process |
| `CvSupervisorStates.RefusalAnswers` | edge_tracker/cv_worker.py:264-279 | what a refusal sets the state to: ready for one that a stop has overtaken, else the state it was looked at in; failed in all other cases |
| `CvSupervisorStates.ReadyTakesNext` | edge_tracker/cv_worker.py:254-333 | from every reachable state: with the worker ready between two sessions, the start at the head of the queue is spawned by the next seven steps of the main loop, if it has a run id and nothing fails |
| `CvSupervisorStates.JudgedExactly` | edge_tracker/cv_worker.py:395-406 | after a session that ended well the worker is ready, after any other it has failed, unless the state already said failed, or ready after one that ended well |
| `CvSupervisorStates.FailedHasCause` | edge_tracker/cv_worker.py:196-406 | the state is failed only after an unusable line, a failed boot, a start without a run id, a failed log or process, a relayed failure or a bad exit |
| `CvSupervisorStates.BadExitEndsSpawning` | edge_tracker/cv_worker.py:397-402 | after a bad exit the worker is not ready, and until something makes it so no further session is spawned |
| `CvSupervisorStates.ShutdownIsFlagged` | edge_tracker/cv_worker.py:219-226 | a shutdown that is read is flagged for good two steps of the reader later |
| `CvSupervisorStates.ShutdownEndsSpawning` | edge_tracker/cv_worker.py:254-259 | once a shutdown is flagged no session follows the one that runs |
| `CvSupervisorProperties.OneChildAtATime` | edge_tracker/cv_worker.py:371-393 | two sessions never live at once |
| `CvSupervisorProperties.ChildrenEndWithSupervisor` | edge_tracker/cv_worker.py:239-243 | no child outlives the main loop, and none registered when the reader last read the slot is left when the supervisor is gone |
| `CvSupervisorProperties.LeftBehindExactly` | edge_tracker/cv_worker.py:239-243 | a child alive when the slot has been read at the end of the input is left unterminated by the rest of what the reader does exactly when it was not registered then |
| `CvSupervisorProperties.OvertakenStopIsLost` | edge_tracker/cv_worker.py:220-224 | a concrete interleaving in which a further start clears the flag before the registration and the stop is lost |
| `CvSupervisorProperties.OvertakingStartMayComeLate` | edge_tracker/cv_worker.py:220-224 | a concrete interleaving in which a further start is read before the registration but clears the flag after it, and the stop is not lost |
| `CvSupervisorProperties.UnregisteredChildIsLeft` | edge_tracker/cv_worker.py:239-243 | a concrete interleaving in which the supervisor is gone and a child not yet registered when the slot was read is left without being terminated by it; the child itself exits when its own input ends (cv_worker.py:113-137) |
| `RunStore.Store.ChangeStatus` | backend/runs/repository.py:161-181 | the status and its moment change; the start and end moments only when given |
| `RunStore.Store.Touch` | backend/runs/repository.py:184-190 | the data interval is extended, its beginning kept |
| `RunStore.Store.RegisterExternalRun` | backend/runs/repository.py:373-401 | creates or refreshes the external run |
| `RunStore.Store.BackfillLegacyRuns` | backend/runs/repository.py:335-370 | in any order every missing id becomes an ended legacy run and nothing else changes |
| `RunStore.Store.ReconcileRun` | backend/runs/service.py:140-160 | the in-progress run, if any, becomes what the decision says |
| `RunStore.Store.RecoverAfterRestart` | backend/runs/service.py:172-187 | an in-progress run is interrupted unless the worker runs it |
| `RunStore.Store.StartRun` | backend/runs/service.py:223-254 | the transaction records the start or raises and leaves the database as it was, the reconciliation inside it included |
| `RunStore.Store.StartRefused` | backend/runs/service.py:260-272 | a refused start marks the run failed, if it is still there |
| `RunStore.Store.EndRun` | backend/runs/service.py:280-297 | the transaction marks an in-progress run ending, again and again if asked, and refuses others |
| `RunStore.Store.EndRefused` | backend/runs/service.py:300-313 | a refused stop puts the run to active or failed by the worker's state alone |
| `RunStore.Store.Admit` | backend/runs/service.py:321-361 | the policy check of a payload, accepted or refused with the database untouched |
| `RunStore.Store.GuardedIngest` | backend/main.py:186-199 | check and write share one transaction |
| `RunStore.Store.DeleteRunRows` | backend/runs/repository.py:420-453 | views first, then rows, of that run only |
| `RunStore.Store.DeleteRun` | backend/runs/service.py:384-416 | the deletion or its refusal |
| `RunLifecycleProperties.AtMostOneInProgress` | backend/runs/service.py:208-315 | in every interleaving of start, end, both compensations, reconcile, ingest, backfill, recover, delete and crashes, at most one run is starting, active or ending, without the database index |
| `RunLifecycleProperties.TombstonesAreFinal` | backend/runs/service.py:321-361 | once tombstoned an id stays so and never again has a run, a metric, an alert, an observation, an evacuee or a view |
| `RunLifecycleProperties.AcceptedExactly` | backend/runs/service.py:321-361 | a payload is accepted exactly when its id is usable and not tombstoned, nobody else is in progress, its run is known or, where unmanaged runs are allowed, new with no other external run receiving data, and what it writes is coherent |
| `RunLifecycleProperties.DeleteIsExact` | backend/runs/repository.py:420-464 | a deletion removes everything of its run, leaves every other run, row and view as it was, and no view without its evacuee |
| `RunLifecycleProperties.OnlyTheCurrentRunIsFed` | backend/runs/service.py:334-341 | while a run is in progress no payload of another is accepted |
| `RunLifecycleProperties.IngestSparesOthers` | backend/runs/service.py:321-361 | an accepted payload changes its own run and rows only |
| `RunLifecycleProperties.CompetitionBeginsExactly` | backend/runs/service.py:343-361 | two external runs begin to receive data at once exactly when one that had gone quiet resumes beside the other; a new one is refused |
| `RunLifecycleProperties.CompetitionNeedsResumption` | backend/runs/service.py:343-361 | over any run of steps they receive data at once only if one has so resumed |
| `RunLifecycleProperties.QuietRunResumes` | backend/runs/service.py:343-348 | a concrete run of steps in which it happens |
| `RunLifecycleProperties.BackfillIsExact` | backend/runs/repository.py:335-370 | backfilling imports exactly the ids with rows but no run and no tombstone, each as an ended run over the interval of its rows, and repeating it changes nothing |
| `RunLifecycleProperties.ClosedRunsReopenExactly` | backend/runs/service.py:301-312 | a closed run is in progress after a step exactly when that step is the compensation of a refused stop while the worker reports running |
| `RunLifecycleProperties.EndedRunReopens` | backend/runs/service.py:301-312 | a concrete run: reconcile ends the run while the stop is out, and the refusal makes it active again, with the worker on another run and the end time still set |
| `RunLifecycleProperties.ActiveOnlyWhileWorkerRuns` | backend/runs/service.py:143-144 | a run becomes active only by a reconciliation that sees the worker run it, or by that compensation |
| `RunLifecycleProperties.StartedOnlyWhenConfirmed` | backend/runs/models.py:63 | over any run of steps a managed run has a start time only once a reconciliation saw the worker run this exact run |
| `RunLifecycleProperties.ExternalRunsNeverEnd` | backend/runs/repository.py:373-401 | over any run of steps an external run stays external and never gets an end time |
| `RunLifecycleProperties.ClosedAsReported` | backend/runs/service.py:74-160 | a reconciliation ends a run exactly when the worker is ready after an end request, fails it only before it became active, and interrupts it otherwise, at that moment |
| `RunDecisions.ActivatedExactly` | backend/runs/service.py:84-112 | after a reconciliation a run is active exactly when it was starting and the worker reports running it, started at that moment, or was active and the worker is neither lost nor ready without it; nothing else changes |
| `RunDecisions.NothingToReconcile` | backend/runs/service.py:140-150 | with nobody in progress a reconciliation changes nothing |
| `RunDecisions.ConfirmedInTime` | backend/runs/service.py:84-90 | with a reconciliation in every window of length I, a run that is starting at the beginning of such a window and that the worker reports running throughout is active at its end, unless it is asked to end or the worker refuses it |
| `RunDecisions.WorkerStoppedExactly` | backend/runs/service.py:96-101 | the worker is told to stop exactly when a start has timed out and the worker, not lost, does not run it |
| `RunDecisions.RecoveredExactly` | backend/runs/service.py:172-187 | after a restart a run in progress is interrupted exactly when the worker does not run it |
| `RunDecisions.StartedExactly` | backend/runs/service.py:208-254 | a start is recorded exactly when after reconciling nobody is in progress and the id is acceptable, no run's and not tombstoned, or generated and nowhere used; what is recorded is a managed run starting now |
| `RunDecisions.EndedExactly` | backend/runs/service.py:280-297 | a stop is recorded exactly for a run in progress while the worker does not run another |
| `RunDecisions.RefusedExactly` | backend/runs/service.py:260-313 | what a refused start and a refused stop leave |
| `RunDecisions.DeletedExactly` | backend/runs/service.py:384-409 | a run is deleted exactly when its id is typed again, it is there and not in progress, the worker is not at it and no external producer still feeds it |
| `RunDecisions.FedExactly` | backend/runs/repository.py:184-190 | an accepted payload marks its run as fed now, keeping when it first was; a new run is an external one that begins now |
| `RunDecisions.RegisteredExactly` | backend/runs/repository.py:373-401 | registering an external run that is there only marks it as fed |
| `RunDecisions.TurnedAwayExactly` | backend/runs/service.py:321-361 | a payload is rejected exactly when the policy does not want it and fails exactly when it is wanted and does not fit |
| `RunLifecycleProperties.OverdueIsClosed` | backend/runs/service.py:96-127 | a reconciliation that finds a start or an end overdue closes it whatever the worker reports |
| `RunLifecycleProperties.TransitionsAreTimely` | backend/runs/service.py:74-160 | with a reconciliation in every window of length I no run stays starting longer than the start timeout plus I after its request, nor ending longer than the stop timeout plus I after its latest end request |
| `LinearAlgebra.SolveUnique` | edge_tracker/three_d_level.py:288 | `np.linalg.solve`: a non-singular system has no other solution |
| `MetrologyProperties.GroundRoundTrip` | edge_tracker/three_d_level.py:284-296 | seeing a point of any plane and looking it up at that height gives the point back; the distance guard is the only way it fails |
| `MetrologyProperties.HeightRoundTrip` | edge_tracker/three_d_level.py:299-330 | from the pixels of feet and landmark the height comes back, whatever the camera; the two guards are the only way it fails |
| `MetrologyProperties.InverseOfExact` | edge_tracker/three_d_level.py:241-242 | inverting an exact saved matrix recovers the plane in the scale it was saved in |
| `MetrologyProperties.ExactPlanesRecoverTheCamera` | edge_tracker/three_d_level.py:207-281 | two exact calibrations, in any two scales, recover the ground plane and the vertical vector with zero residual and are never refused for disagreeing |
| `LeastSquares.ScaleIsBest` | edge_tracker/three_d_level.py:245-252 | the two planes are matched by the scale that brings their first two columns nearest to each other |
| `LeastSquares.DisagreementExactly` | edge_tracker/three_d_level.py:252-270 | so two planes are refused for disagreeing exactly when no scale brings them within the tolerance; what is built has the least residual and the vertical vector between the planes at that scale |
| `LeastSquares.FitIsBest` | edge_tracker/three_d_level.py:299-330 | a height looked up from any two pixels, exact or not, is the best one: at no other does the landmark's ray pass nearer to the person's vertical |
| `LeastSquares.RefusedExactly` | edge_tracker/three_d_level.py:190-251 | what is refused before, in which order |
| `MetrologyProperties.MismeasuredPlaneCancels` | edge_tracker/three_d_level.py:39-41 | measuring the elevated plane k times too high multiplies every height looked up by k and changes no position found with such a height |
| `MetrologyProperties.LearnedThenFound` | edge_tracker/three_d_level.py:207-330 | the whole way from two exact saved matrices, one mis-measured: a height learned once is wrong by that factor and a position found later with it is the true one |
| `MetrologyProperties.GroundRescaled` | edge_tracker/three_d_level.py:284-296 | no ground position depends on the scale of the calibration |
| `MetrologyProperties.HeightRescaled` | edge_tracker/three_d_level.py:299-330 | no height does |
| `MetrologyProperties.SavedScaleIsIrrelevant` | edge_tracker/three_d_level.py:215-219 | multiplying either saved matrix by any nonzero number changes no height and no position, guards aside |
| `LeanGate.CosineBySquares` | edge_tracker/three_d_level.py:351-364 | the comparison of squares the model makes is the comparison of the cosine of the lean with that of the greatest lean allowed |
| `LeanGate.GateExactly` | edge_tracker/three_d_level.py:333-364 | the gate in so many words: neither the way from feet to head nor the way to the vertical vanishing point, or the vertical vector where that is out of reach, is too short, and the cosine of the angle between them is at least that of the greatest lean allowed |
| `LeanGate.ObservedUpright` | edge_tracker/three_d_level.py:351-364 | the image of an upright person runs along the way to the vertical vanishing point, times the height over the landmark's depth |
| `LeanGate.UprightPassesExactly` | edge_tracker/three_d_level.py:333-364 | with the vanishing point within reach every upright person passes the gate, whatever lean short of 180 degrees it allows, exactly when that factor times the vertical vector's depth is positive and the directions are long enough |
| `LeanGate.UprightNearHorizontal` | edge_tracker/three_d_level.py:342-343 | with it out of reach the vertical vector itself is compared, turned round by the sign of that factor |
| `LeanGate.UprightPassesLevel` | edge_tracker/three_d_level.py:342-343 | exactly level, an upright person passes exactly when the factor is positive |
| `LeanGate.GateRescaled` | edge_tracker/three_d_level.py:333-364 | with the vanishing point within reach the gate does not depend on the saved scale |
| `LeanGate.SavedSignDecides` | edge_tracker/three_d_level.py:342-343 | for a level camera it depends on nothing but its sign: of a calibration and its negative exactly one lets a given upright person through |
| `LeanGate.LearnsFromUprightExactly` | edge_tracker/three_d_level.py:511-515 | so a frame of an upright person whose nose or shoulders are seen is used exactly under that condition and otherwise changes no height |
| `LeanGate.NothingLearnedLookingDown` | edge_tracker/three_d_level.py:490-534 | a concrete camera that looks down and an upright person whose nose is measured rightly and plausibly and not learned, whatever lean short of 180 degrees is allowed |
| `HeightMemory.MedianResistsOutliers` | edge_tracker/three_d_level.py:411 | while more than half of the window lies between two heights the median does |
| `HeightRules.MedianExactly` | edge_tracker/three_d_level.py:411 | twice the median is the sum of the two middle entries in order, which of an odd number are the same |
| `HeightMemory.WindowIsLatest` | edge_tracker/three_d_level.py:402-408 | the window is exactly the last 31 accepted samples and the count counts them all |
| `HeightMemory.SettlesExactly` | edge_tracker/three_d_level.py:409-416 | a height settles exactly when enough samples fit the window |
| `HeightRules.SettledNext` | edge_tracker/three_d_level.py:402-416 | one more sample settles nothing while there are too few, settles the height at the median of the last 31 the first time there are enough, and then moves it the same share of the way to that median |
| `HeightRules.SettledApproaches` | edge_tracker/three_d_level.py:411-416 | while the median stays the gap between it and a settled height shrinks by the same factor with every sample |
| `HeightRules.SampledExactly` | edge_tracker/three_d_level.py:497-534 | a frame adds a sample exactly when its camera is calibrated, the feet are seen directly, the identity is stable, the person is upright by the nose or else the shoulders, and the height is an adult's |
| `HeightMemory.ValueStaysBetween` | edge_tracker/three_d_level.py:406-416 | whatever bounds the accepted samples bounds the settled height, through median and average |
| `HeightMemory.Estimator.LearnLandmarkHeights` | edge_tracker/three_d_level.py:490-534 | the lean gate, the height of each landmark from its pixel and the loop over the landmarks update the table as the function the next rows are about |
| `HeightMemory.Estimator.ForgetIdentity` | edge_tracker/three_d_level.py:546-548 | exactly the four memories of the identity are dropped |
| `HeightMemory.TableMatchesSamples` | edge_tracker/three_d_level.py:490-548 | after any frames and forgettings every memory is that of the samples accepted since the person was last forgotten |
| `HeightMemory.HeightsStayHonest` | edge_tracker/three_d_level.py:406-534 | every settled height lies between the smallest and the largest of those samples and inside the landmark's anatomical bounds |
| `SettledHeights.MemoryEach` | edge_tracker/three_d_level.py:392-416 | learned from samples in another unit, one that keeps order, means and blends, a memory is the same in that unit: window, median and moving average |
| `SettledHeights.SettledHeightsCancel` | edge_tracker/three_d_level.py:39-41 | over any frames and forgettings, with every elevated plane measured k times too high and the same frames accepted, every settled height is k times too high and a position found with it is unchanged |
| `SettledHeights.BuiltStretched` | edge_tracker/three_d_level.py:207-281 | measuring the plane k times too high leads to just such calibrations |
| `PlaneGeometry.Triangle` | edge_tracker/core_math.py:81-82 | distances obey the triangle inequality |
| `PlaneGeometry.BlendWithin` | edge_tracker/core_math.py:434 | a smoothing step moves no further than the raw point, for a factor of at most one |
| `MapMotion.Filter.UpdateMapMotion` | edge_tracker/core_math.py:387-442 | the in-place filter does and shows what the update function says |
| `MapMotion.CallExactly` | edge_tracker/core_math.py:387-442 | a first point is taken as it is; in the same instant the stored one stands, another owner being shown its own; a point out of reach is held back; any other moves the stored one the smoothing factor's share of the way, 0.35 of it for an inferred point and nothing for a stale one |
| `MapMotion.PulledTowards` | edge_tracker/core_math.py:428-442 | while points of one grade keep falling on one place, what lies between the stored point and that place shrinks by the same factor with every call |
| `MapMotion.NobodyOutrunsTheLimit` | edge_tracker/core_math.py:387-442 | positions stored for one key at any two moments of any run are no further apart than the maximum speed allows, through smoothing, stale and hold steps, whoever owns them |
| `MapMotion.ShownObeysTheLimit` | edge_tracker/core_math.py:387-442 | the points shown for one key by any two calls, those that show another owner's conflict aside, are no further apart than that between the stored moments, and, while the clock does not run back, between the two calls, give or take a microsecond |
| `MapMotion.LargerFactorOvershoots` | edge_tracker/core_math.py:434 | with a smoothing factor above one in size some reachable point breaks the bound, so the condition above is exact |
| `FootPoint.Estimator.RememberFootPoint` | edge_tracker/core_math.py:176-185 | remembering writes the key's entry and nothing else |
| `FootPoint.Estimator.EstimateFootPoint` | edge_tracker/ground_point.py:246-430 | the cascade of decisions with its memory does and returns what the estimate function says |
| `FootPoint.OnlyAcceptedIsRemembered` | edge_tracker/ground_point.py:344-430 | only an accepted foot is remembered; a hold, a recall and a failure leave the memory as it was |
| `FootPoint.AnsweredExactly` | edge_tracker/ground_point.py:246-430 | which foot is offered, the learned one where the measured one is missing, uncertain or seen from above; that an offer is taken unless the stored point is held; exactly when the point last seen is answered instead; and the reason for nothing |
| `FootPoint.AcceptedExactlyWithinReach` | edge_tracker/core_math.py:207-238 | in a later frame a candidate is accepted exactly when it lies within the allowance since the stored frame; otherwise the stored point is held |
| `FootPoint.JumpsStayInReach` | edge_tracker/core_math.py:207-238 | points accepted for one key at increasing frames respect the per-frame jump bound over the whole run |
| `FootPoint.SameFrameBreaksTheBound` | edge_tracker/core_math.py:229-231 | with frames that do not increase the bound fails at every distance: a foot the same frame brings again is accepted wherever it lies |
| `FootPoint.RecalledWasAccepted` | edge_tracker/core_math.py:188-204 | over any run a point that is recalled is the foot last accepted for the key, no more frames ago than the age limit, and not another track's of the same frame |
| `FootPoint.HoldCannotLatch` | edge_tracker/ground_point.py:357-368 | however many frames were held, a foot within distance D of the stored point is accepted from D over the allowance frames after it |

## Left out

- NoLostStop: says nothing of when the reader or the main loop next moves, because the program promises no liveness there; `RegistrationTells` and `StopReachesChild` say what their next step achieves.
- JumpsStayInReach: needs the calls of a key to come in increasing frames, because the code accepts any point in a frame it has already stored (`SameFrameBreaksTheBound`).
- SettledHeightsCancel: speaks of frames accepted through both calibrations or neither, since the anatomical bounds and the numeric guards judge the height as measured.
- SameSurvivors: assumes that no two duplicate pairs tie and no two duplicates are alike in all that is compared, since there the code falls back on the order of the list.
- SavedScaleIsIrrelevant: speaks of look-ups that pass the numeric guards (1e-9 and 1e-12) in both scales, since the guards themselves are not scale-free.
- ActiveOnlyWhileWorkerRuns: does not say that the worker runs the same run after a refused stop, because the code does not check it.
- Roles and the fused identity state of a person, the reason counts, the diagnostics and every `identity_event` have no effect on the decisions and are not modelled.
- The fields the coordinator writes back into observations (`identity_id`, `location_confirmed`, `location_pair_streak`) and its note of a location match: outputs only; the answers they are read from are arbitrary.
- `distance_cm`, `basis` and the quality reason in a record of a suppressed duplicate: copied for debugging.
- Floating-point rounding and overflow.
- The child's own session loop, its exit when its input ends, pipes, JSON and timeouts: a child lives, is told and exits; a stop written to a living child counts as told.
- The run id in the supervisor's state messages, and the manager's view of late messages.
- SQL, locking retries, audit events, file deletion, the MQTT and tactical caches, and the administrator's deletion of evacuees, which only removes rows.
- Raw run ids that differ from their trimmed form, which some writers pass on.
- The interval a backfilled run is given: a parameter.
- The reported speed of the motion filter, anatomical ratio and anchor averages, and how MediaPipe, YOLO and head pitch turn pixels into a pose: the pose is the input of the cascade.
- `position_uncertainty_cm`, the confidence scores and the choice among candidate positions: scores that no other modelled decision reads.
- Loading calibration files and their messages; the refusals themselves are modelled.
- Authentication, reports, camera management, drawing and the front end.
