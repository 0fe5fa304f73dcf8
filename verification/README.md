# Skills service: lesson engine, private state, entitlements and graph code in Dafny

A model of the hard core of the skills service and proofs about it. The service keeps learners' work in the rooms of
learning paths, evaluates submissions of the lesson engine in a sandbox, books verdicts with XP, sells courses and
preserves course rights when an account's data is deleted. What is proved is mostly about whole runs: any number of
requests, evaluations and operators interleaved in any way, with evaluations that outlive their leases and erasures
between any two steps.

How the parts are written:

- Operations that change rows are classes whose fields are the tables and whose methods follow the source statement by
  statement, rollback included (`EngineDatabase.Database`, `CourseProjects.Projects`, `LearningPlans.Plans`,
  `Entitlements.Database`, `SkillTree.Skills`, `DailyLimit.Admissions`, `RootDepths.Memo`). Each method is proved equal
  to a step function on the tables; runs, invariants and theorems are about those functions.
- Loops of the source are methods with loops: the canonical writer, the worklists, the merge of alias groups, the
  passes of the room stream, the leaderboard, the steps of a learning plan, the concepts a learner gained.
- A transaction is one atomic step under the user guard. The unlocked first read of `book`, the lease and the running
  evaluation are steps of their own, so everything may happen between them. The skill endpoints take no
  guard; their edits are taken one at a time.
- The world (policy, clock, shop, sandbox, account service) is a parameter of each step. The sandbox is a function of
  the frozen job.

| file | what it models |
|---|---|
| `Canonical`, `CanonicalReader` | the canonical JSON writer, and a reader that inverts it |
| `Register` | the exactly-once register behind all revisioned private documents |
| `Rooms`, `RoomChanges` | one learning room, its practice rounds, and what every change of it rests on |
| `RoomsRegister`, `RoomAchievements` | rooms as a register with four receipts, and where their achievements came from |
| `CourseProjects`, `LearningPlans` | the two other registers, with sixteen receipts and with one |
| `EngineTables`, `EngineSteps`, `EngineSystem` | tables, transactions and interleavings of the lesson engine |
| `EngineDatabase` | the same transactions, imperative |
| `EngineInvariant` ... `EngineRuns` | the invariant and that every step keeps it, one file per group of steps |
| `EngineTheorems`, `EngineExample` | what holds over all runs, and one concrete run |
| `EngineBands`, `EngineAnswers`, `EngineOutcomes`, `EngineMeaning` | how bands move, what each answer rests on and means |
| `Entitlements`, `EntitlementRuns`, `EntitlementAnswers` | course orders, retained rights, erasure |
| `SkillGraph`, `SkillTree` | dependents worklist and the operations on the skill tree |
| `RuntimeClosure`, `AliasGroups`, `RootDepths` | the other graph algorithms |
| `RoomStream`, `RoomOrder`, `DailyLimit`, `DailyAnswers`, `Leaderboard` | selection, quota and ranks |
| `FiniteSets`, `Options`, `Ids` | shared by the rest |

Promises that the code does not keep in full. The model follows the code, with a concrete input and the exact condition:

- "The same plan for the same start is the same submission, checked first" (`api/services/engine_tasks.py:173`): the
  check comes after the refusal for a task without an open start, so right after its verdict an exact resubmission is
  refused. `ResubmissionIsTheSame` gives the condition, `VerdictUsesUpTheStart` the failing family, and
  `EngineExample.ExampleRun` an input.
- A room is offered whenever one is available: an exercise that cannot be checked, or a room that cannot be shown, ends
  the request when it is asked about first (`CheckDownEndsRequest`; `StreamIsComplete` is the condition).
- Finished material after new material: a practice round already in progress does come first in the room stream
  (`RoundInProgressComesFirst`; `NewBeforeRepeats` is the condition).
- "The longest chain of dependencies" (`api/services/recommendations.py:64`): with two roots that depend on each other
  the one processed second gets 0 (`TwoRootsInACycle`). The depths are the longest chains in every order exactly where
  no cycle of several roots exists (`LongestUnlessCyclic`).
- The daily limit, with midnight between the status read and the insertion: a start is then charged to another day than
  the one whose starts were counted (`MidnightStart`). The limit of every local day holds exactly where each such start
  is the first on its day (`LimitHolds`), as it is on a clock that never steps back; `ClockStepsBack` is an input that
  exceeds it.
- Pages of the leaderboard make up one ranking exactly for published snapshots, whose order ends with the user id, and
  where no two participants are tied (`PagesFitExactly`; `TiedPair` is an input).
- No cycle in the skill tree, for updates that overlap: the endpoints take no lock, so two accepted updates may close a
  cycle (`OverlappingUpdatesCloseACycle`; `OverlappingUpdates` is the condition).

## Model

| member | source | states |
|---|---|---|
| `Canonical.Write` | api/utils/canonical.py:37-70 | the in-place writer appends exactly the canonical form of the value, and refuses exactly the values that hold an unsafe integer, a lone surrogate or something outside JSON |
| `Canonical.WriteText` | api/utils/canonical.py:19-34 | a string is quoted with the two escapes and lower-case control escapes, or refused for a lone surrogate |
| `Canonical.Canonical` | api/utils/canonical.py:73-77 | the text of a value is its canonical form, or there is none |
| `Canonical.SortedAscends` | api/utils/canonical.py:57-67 | object keys are written in strictly ascending order of code points, each once |
| `CanonicalReader.RoundTrip` | api/utils/canonical.py:37-77 | reading the canonical text of any representable value, followed by anything that does not start with a digit, gives back the value and that remainder |
| `CanonicalReader.TextDeterminesValue` | api/services/engine_tasks.py:242-246 | two values have the same canonical text if and only if they are equal: "the same plan" means the same plan |
| `CanonicalReader.QuotedIsJsonString` | api/utils/canonical.py:19-34 | every written string is a string of section 7 of RFC 8259 |
| `Register.PruneKeepsLast` | api/services/rooms.py:963-972 | deleting all but the newest receipts of a document drops exactly those below its last `keep` revisions |
| `Register.KeptAreTheLast` | api/services/rooms.py:963-972 | in every reachable state the kept receipts are those of the last min(keep, n) accepted changes, no other |
| `Register.KeptRevisions` | api/services/course_project.py:111-122 | the kept receipts carry the last min(keep, n) revisions, each exactly once |
| `Register.OneChangePerRevision` | api/services/rooms.py:862-865 | an accepted change raises the revision by one, and no later run accepts a second change for the same expected revision |
| `Register.RetryIsExactlyOnce` | api/services/rooms.py:852-865 | an accepted change is never applied again; its retry is replayed exactly while it is among the last `keep`, and refused after that or after an erasure |
| `Register.ErasureIsFinal` | api/services/user_deletion.py:43-75 | no later step gives an erased account a document or a receipt |
| `Rooms.CollectIntroduced` | api/services/rooms.py:139-152 | the loop collects exactly the concepts of the finished rooms |
| `Rooms.IntroducedIsExact` | api/services/rooms.py:139-152 | a concept is introduced exactly by a finished room that teaches it, or a solved or passed one that practises it |
| `Rooms.RoundShows` | api/services/rooms.py:118-137 | a practice round shows its own state, and its end what was achieved before, or introduced after a skip |
| `Rooms.AchievementIsAbsorbing` | api/services/rooms.py:839-924 | no change through the rooms, practice rounds included, touches a first achievement, and each raises the revision by one |
| `Rooms.ClientNeverFinishesEngine` | api/services/rooms.py:870-888 | no client request completes, skips or reopens a room of the lesson engine |
| `Rooms.IntroducedGrows` | api/services/rooms.py:139-163 | rooms that keep their achievements introduce no less, so no unit is locked again |
| `RoomChanges.FinishIsExact` | api/services/rooms.py:764-793 | a client finishes an open room or round outside the engine exactly where the request earns it: skipped where allowed, solved where the challenge service reports the exercise, or in a round the named attempt, solved, introduced for the stored answer, a passing grading or the fallback |
| `RoomChanges.FinishWrites` | api/services/rooms.py:906-911 | a finish keeps the draft and writes the achievement, or in a practice round only the state of the round |
| `RoomChanges.EngineFinishIsExact` | api/services/rooms.py:882-888 | a client's finish of an engine unit writes nothing and confirms exactly what the bookings completed |
| `RoomChanges.SaveIsExact` | api/services/rooms.py:862-881 | a save is taken exactly at the revision and round it names, of an admitted learner within the limits, and stores the draft |
| `RoomChanges.SaveWrites` | api/services/rooms.py:876-911 | it begins a new room and changes nothing but draft and revision of any other |
| `RoomChanges.ReviewIsExact` | api/services/rooms.py:869-875 | a practice round begins, with an empty draft, exactly in a finished room outside the engine without one in progress |
| `RoomAchievements.AchievementsAreEarned` | api/services/rooms.py:764-793 | over every run, each finished room that no booking passed had a request of its learner that earned exactly its achievement |
| `RoomsRegister.SavedIsAccepted` | api/services/rooms.py:839-972 | a saved room change is an accepted save of the register |
| `RoomsRegister.RoomsAreARegister` | api/services/rooms.py:839-972 | over every run of the engine the rooms are the register after the run's own saves, tombstones and erasures |
| `RoomsRegister.RoomsKeepFour` | api/services/rooms.py:963-972 | the receipts of a room are those of exactly its last four revisions |
| `RoomsRegister.RoomRetryIsExactlyOnce` | api/services/rooms.py:852-865 | the retry of a saved room change never changes anything: original answer while among the last four and admitted, refusal otherwise |
| `CourseProjects.Projects.Save` | api/services/course_project.py:51-123 | the stepwise save is the step function, refusals and pruning included |
| `CourseProjects.SaveIsExact` | api/services/course_project.py:51-123 | a new save is taken exactly from an admitted live learner, within its size, for the revision there is; it stores the state |
| `CourseProjects.ProjectsAreARegister` | api/services/course_project.py:51-123 | projects are a register, and the stored state is that of the last accepted save |
| `CourseProjects.ProjectsKeepSixteen` | api/services/course_project.py:111-122 | the receipts of a project are those of exactly its last sixteen revisions |
| `CourseProjects.ProjectRetryIsExactlyOnce` | api/services/course_project.py:59-72 | a retry gets the original answer, state included although the receipt holds none, while among the last sixteen; otherwise it is refused |
| `CourseProjects.ProjectErasureIsFinal` | api/services/course_project.py:52-55 | after an erasure no save, admitted before it or not, leaves a project or a receipt |
| `LearningPlans.CheckSteps` | api/services/learning_plan.py:92-117 | accepts exactly the plans whose steps are all known and pairwise different, and otherwise names the first bad step and whether it is a repeat |
| `LearningPlans.Plans.Save` | api/services/learning_plan.py:208-254 | the stepwise save is the step function, the reuse check before the check of the steps |
| `LearningPlans.SaveIsExact` | api/services/learning_plan.py:208-254 | a new save is taken exactly from a live learner, within its size, for the revision there is, with steps that the content lists and none twice; it stores the plan |
| `LearningPlans.PlansAreARegister` | api/services/learning_plan.py:208-254 | the plan rows are a register with one receipt, and every stored plan holds known steps, each once |
| `LearningPlans.PlanRetryIsExactlyOnce` | api/services/learning_plan.py:217-226 | a retry gets the original answer exactly while it is the latest save |
| `LearningPlans.PlanErasureIsFinal` | api/services/learning_plan.py:209-212 | no save after an erasure creates a plan again |
| `EngineTables.TermsOf` | api/services/engine.py:93-104 | the terms of a revision are those of its tasks, in order |
| `EngineRevisions.TaskOfRevision` | api/services/engine_verdicts.py:158-161 | a task is in a revision's document exactly when it is in its terms, with the bound values and a practice case for every band |
| `EngineRevisions.PublishKeepsRevisions` | api/services/engine.py:164-215 | publishing keeps one active revision per unit, gap-free numbers, and equal terms and bands in all revisions |
| `EngineRevisions.PublishKeepsInv` | api/services/engine.py:142-215 | a newer revision breaks nothing that holds of running tasks, submissions, evaluations, rooms and XP |
| `EngineRequests.StartNeverBreaks` | api/services/engine_tasks.py:88-99 | the practice case of the state's band exists in the active revision: `practice[band]` never fails |
| `EngineRequests.StartKeepsInv` | api/services/engine_tasks.py:102-154 | a start keeps the whole invariant: a pending submission keeps its start and revision |
| `EngineSubmissions.SubmitNeverFails` | api/services/engine_tasks.py:157-238 | the revision and the task of a start are always there, and the unique open submission is never violated |
| `EngineSubmissions.SubmitKeepsInv` | api/services/engine_tasks.py:157-238 | a submission keeps the whole invariant |
| `EngineSubmissions.ClaimKeepsInv` | api/services/engine_verdicts.py:212-225 | the lease keeps the whole invariant, and the evaluation runs the frozen job |
| `EngineSubmissions.ReadIsOk` | api/services/engine_verdicts.py:151-163 | what the unlocked read holds is the sandbox's result for the frozen job, fitting the task of its revision |
| `EngineBooking.CountedOk` | api/services/engine_verdicts.py:107-120 | `counted` succeeds exactly for a band of the rule, stays in its bands, and leaves one counter at 0 |
| `EngineBands.PassesRaise` | api/services/engine_verdicts.py:107-120 | between two states of any run with only passes of a task: they are counted on, fails before them are forgotten, and the one that reaches the threshold moves the task one band up, at the top not at all, with both counters at 0 |
| `EngineBands.FailsLower` | api/services/engine_verdicts.py:107-120 | likewise fails, one band down, at the bottom not at all |
| `EngineBands.LevelStays` | api/services/engine_verdicts.py:189-200 | without bookings in between the band and the counters stay |
| `EngineBooking.ReceiptOfTask` | api/services/benefits.py:31-50 | a task has an XP receipt exactly when its state says that XP was applied, and it is that of its bound award |
| `EngineBooking.ApplyXpShape` | api/services/benefits.py:31-71 | without a receipt `apply_xp` adds one completed receipt with its XP or nothing; with one it changes nothing |
| `EngineBooking.BookShape` | api/services/engine_verdicts.py:165-209 | a booking that finds its submission open books it whole or changes nothing, and answers with XP exactly for the first pass |
| `EngineBookingInv.OnlyOpen` | api/services/engine_tasks.py:115-117 | a task has one open submission at most |
| `EngineBookingInv.BookKeepsRooms` | api/services/engine_verdicts.py:123-144 | a booking completes the room exactly when the last required task passes |
| `EngineBookingKeeps.LateIsPaid` | api/services/engine_verdicts.py:185-187 | an evaluation that comes after another's booking holds the same verdict, and a pass has been paid |
| `EngineBookingKeeps.LateChangesNothing` | api/services/engine_verdicts.py:169-187 | a booking that finds the account erased or the submission booked changes no table |
| `EngineBookingKeeps.BookKeepsInv` | api/services/engine_verdicts.py:147-209 | any booking, in any state, keeps the whole invariant |
| `EngineXp.TotalAfterReceipt` | api/models/xp.py:30-49 | a new receipt adds its XP to the total of its learner and sub-skill, and to no other |
| `EngineXp.XpKeepsInv` | api/services/benefits.py:31-71 | keyed awards of other services keep the whole invariant |
| `EngineErasure.MutateShape` | api/services/rooms.py:839-972 | a room request writes one room of a live account, keeping its achievement, or nothing |
| `EngineErasure.EraseKeepsInv` | api/services/user_deletion.py:43-75 | erasure keeps the whole invariant, with evaluations of the account still in flight |
| `EngineRuns.ReachableInv` | api/services/engine_verdicts.py:147-259 | the invariant holds after every run of every interleaving |
| `EngineRuns.RunRemembers` | api/services/engine_verdicts.py:147-259 | later states keep frozen submissions, booked verdicts, first passes, achievements and booking order, unless the account's data is deleted |
| `EngineTheorems.EachIsBookedOnce` | api/services/engine_verdicts.py:165-198 | the bookings of a task are its booked submissions, each exactly once, with their own verdict and the rule of their own revision |
| `EngineTheorems.BookedIsFinal` | api/services/engine_verdicts.py:185-187 | a booked submission never changes again |
| `EngineTheorems.EvaluationsAgree` | api/services/engine_verdicts.py:233-259 | all evaluations of a submission, however late, hold the same verdict |
| `EngineTheorems.LeasesDoNotOverlap` | api/services/engine_verdicts.py:212-230 | whatever happens in between, no second evaluation takes a submission within 30 seconds of a lease |
| `EngineTheorems.LevelIsTheFold` | api/services/engine_verdicts.py:107-120 | band, fails and passes are always the fold of `counted` over the bookings in order from the first band, one counter is 0, and the band is one of its revision's |
| `EngineTheorems.XpIsConserved` | api/models/xp.py:30-49 | a counter and what was deleted with its sub-skill are always the sum of the committed receipts of the learner and sub-skill, and each receipt has its result |
| `EngineTheorems.XpIsCounted` | api/models/sub_skill.py:55 | while its sub-skill is not deleted, a counter alone is that sum |
| `EngineTheorems.PassedIsPaidOnce` | api/services/engine_verdicts.py:163-209 | receipt, `xp_applied`, `passed_at` and a booked pass stand or fall together, and exactly one answer carried the XP |
| `EngineTheorems.XpIsAnsweredOnce` | api/services/engine_verdicts.py:205-209 | no later answer carries the XP of a task that was paid |
| `EngineTheorems.FirstPassStays` | api/services/engine_verdicts.py:193-198 | the first pass keeps its instant and its award |
| `EngineTheorems.CompletedMeansAllPassed` | api/services/engine_verdicts.py:123-144 | an engine unit's room is completed if and only if every required task has a booked pass, whichever revision one asks |
| `EngineTheorems.AchievementStays` | api/services/rooms.py:906-911 | a first achievement stays over every run of saves, practice rounds and bookings |
| `EngineTheorems.UnlockedStaysUnlocked` | api/services/rooms.py:155-163 | what was once unlocked is never locked again |
| `EngineTheorems.AcceptedIsHeld` | api/services/engine_tasks.py:209-228 | an accepted submission's start, band and revision are exactly those of its task state |
| `EngineTheorems.OneOpenSubmission` | api/services/engine_tasks.py:188-193 | one open submission per task and one submission per start, without the unique constraints |
| `EngineTheorems.NothingIsMissing` | api/services/engine_tasks.py:54-67 | in every reachable state start and submit never meet a missing revision, task or practice case, nor a lost race |
| `EngineTheorems.ResubmissionIsTheSame` | api/services/engine_tasks.py:164-185 | the same plan for the same start is the same submission in every later state with an open start, and is refused in every other |
| `EngineTheorems.VerdictUsesUpTheStart` | api/services/engine_verdicts.py:190-200 | every booking uses up its own start and writes the frozen job's verdict, and the exact resubmission is then refused |
| `EngineTheorems.RegistryIsSound` | api/services/engine.py:164-215 | one active revision per published unit, numbers 1, 2, ... without gap or repeat, shared bands and terms |
| `EngineAnswers.AdmissionIsExact` | api/services/engine_tasks.py:33-51 | only a live learner with access gets past the admission, in an unlocked or course-opened unit of the engine |
| `EngineAnswers.StartIsExact` | api/services/engine_tasks.py:88-154 | in every reachable state a start is taken exactly for a task of the active revision it names, unless a pending submission of an older one holds it up or the limit is reached; it gives the open start there is, or a fresh one of the task's band, at first the initial one |
| `EngineAnswers.SubmitIsExact` | api/services/engine_tasks.py:157-246 | for a fresh start a plan is accepted exactly when it is the one saved in the room at the named revision and of the task's kind, and then frozen with revision, start and band; one that differs is a conflict |
| `EngineAnswers.CreatedIsSaved` | api/services/engine_tasks.py:194-199 | in any state a submission is created only from the plan that the room holds, for an open start |
| `EngineOutcomes.LeaseEnds` | api/services/engine_verdicts.py:212-230 | whatever else happens, a taken submission can be taken again exactly from 30 seconds on, while it is accepted |
| `EngineOutcomes.NewCanBeTaken` | api/services/engine_verdicts.py:212-225 | a new submission can be taken at once |
| `EngineMeaning.PublishIsExact` | api/services/engine.py:142-191 | in every reachable state a publication is taken exactly for a valid document of an engine unit that keeps the terms and bands of all its revisions, with the package of its content |
| `EngineMeaning.PublishedIsActive` | api/services/engine.py:184-215 | it makes its document and package the active revision |
| `EngineMeaning.PublishingSwitches` | api/services/engine.py:184-215 | it changes no other revision, but that those of the unit are no longer active |
| `EngineMeaning.AwardIsExact` | api/services/benefits.py:31-71 | an award without a receipt is paid exactly to a live account that the account service knows, in a known sub-skill, with its XP on one counter |
| `EngineMeaning.PassMeansAllMet` | api/services/engine_verdicts.py:80-90 | a booked verdict is the sandbox's for the frozen job; a pass means that every criterion was judged once and met, no other, and shows no reasons |
| `EngineMeaning.ReasonsAreTold` | api/services/engine_verdicts.py:98-104 | the reasons of a fail are the texts of its codes, each code once, in order, no empty text |
| `EngineMeaning.ReadIsExact` | api/services/engine_verdicts.py:147-163 | a result is taken up for booking exactly while its submission is open and if it fits the frozen task |
| `EngineMeaning.BookingIsExact` | api/services/engine_verdicts.py:165-209 | an evaluation of an open submission books it, pass or fail, unless it is a first pass whose XP cannot be paid |
| `EngineMeaning.BookingShows` | api/services/engine_verdicts.py:59-72 | the answer shows the final verdict with its feedback, and the unit as completed exactly if the pass leaves the room completed |
| `EngineMeaning.ErasesOneUser` | api/services/user_deletion.py:43-75 | an erasure leaves no row of the user and touches none of anybody else |
| `EngineTheorems.ErasureIsFinal` | api/services/user_deletion.py:43-75 | once an account's data is deleted, no later step, even one that read before, leaves a row or XP of it |
| `EngineTheorems.ErasedIsRefused` | api/services/user_deletion.py:43-75 | in every state after the erasure every request of the account is refused and changes nothing |
| `EngineTheorems.ErasedEarnsNothing` | api/services/benefits.py:51-59 | in every such state every XP delivery to it changes nothing and leaves no receipt: always the same refusal, or a conflict with another account's receipt |
| `EngineTheorems.ErasedIsNotBooked` | api/services/engine_verdicts.py:169-184 | an evaluation that read before the erasure books nothing after it |
| `EngineExample.ExampleRun` | api/services/engine_tasks.py:170-185 | a concrete run to a completed room with 5 XP paid once, after which the exact resubmission is refused |
| `EngineDatabase.Database.Publish` | api/services/engine.py:142-215 | the stepwise publication is the step function |
| `EngineDatabase.Database.Start` | api/services/engine_tasks.py:102-154 | the stepwise start, rolled back on refusal, is the step function |
| `EngineDatabase.Database.Submit` | api/services/engine_tasks.py:157-238 | the stepwise submission is the step function |
| `EngineDatabase.Database.Claim` | api/services/engine_verdicts.py:212-225 | the conditional update of the lease is the step function |
| `EngineDatabase.Database.ApplyXp` | api/services/benefits.py:31-71 | claiming the receipt first and taking it back on refusal is the step function |
| `EngineDatabase.Database.CompleteUnit` | api/services/engine_verdicts.py:123-144 | completes the room and answers whether the unit is completed |
| `EngineDatabase.Database.Book` | api/services/engine_verdicts.py:147-209 | the stepwise booking, rolled back on every failure, is the step function |
| `EngineDatabase.Database.MutateRoom` | api/services/rooms.py:839-972 | the stepwise room change is the step function |
| `EngineDatabase.Database.DeleteUserData` | api/services/user_deletion.py:43-75 | deleting table by table is the step function |
| `Entitlements.Database.Accept` | api/services/purchases.py:144-170 | the accepting transaction of `buy` is the step function |
| `Entitlements.Database.Deliver` | api/services/purchases.py:196-257 | delivering an order is the step function |
| `Entitlements.Database.Grant` | api/services/retained_rights.py:151-228 | delivering a retained right is the step function, a replay included |
| `Entitlements.Database.ObserveCourses` | api/services/retained_rights.py:48-77 | every given course ends with exactly one right of the source: the old one, or a new one that records what was observed |
| `Entitlements.Database.PreserveBeforeErasure` | api/services/retained_rights.py:11-77 | rights in use are freed with the next generation, grants withdrawn, and each own course gets its right |
| `Entitlements.Database.DeleteUserData` | api/services/user_deletion.py:43-75 | preservation comes first, then tombstone, review of open orders and removal of access |
| `EntitlementRuns.RunKeepsInv` | api/services/retained_rights.py:151-228 | after every run rights in use are granted and accessed, keys mark exactly the active orders, and access is provided |
| `EntitlementRuns.RightServesOne` | api/services/retained_rights.py:199-205 | all granted grants of a right name one subject, the right's own, who has the access row |
| `EntitlementRuns.AccessIsProvided` | api/services/purchases.py:243-246 | every access row came from a fulfilled order or a right that still serves the learner |
| `EntitlementRuns.OneActiveOrder` | api/services/purchases.py:160-172 | a learner has one active order per course at most, by the checks alone: the unique key is never violated |
| `EntitlementRuns.AdmissionSurvivesErasure` | api/services/retained_rights.py:22-77 | every course admitted at an erasure is covered by a right in every state after it |
| `EntitlementRuns.ReplayChangesNothing` | api/services/retained_rights.py:138-148 | replaying a delivery changes nothing and names the same right and subject in every later state, to its own source only |
| `EntitlementRuns.EntitlementErasureIsFinal` | api/services/purchases.py:206-222 | after an erasure no order, delivery or right gives the account access again, and no further order is fulfilled |
| `EntitlementAnswers.OfferIsExact` | api/services/purchases.py:108-141 | an order is offered exactly to a live learner without access or a pending order, for a course that is not free |
| `EntitlementAnswers.AcceptIsExact` | api/services/purchases.py:144-171 | an order is accepted exactly by its learner, as it was offered and still is, with both consents, without the course or another order of it |
| `EntitlementAnswers.DeliverIsExact` | api/services/purchases.py:206-257 | a delivery provides the course and fulfils the order if and only if the order was prepared or paid, the account is live, and the shop answered paid, confirmed and in time |
| `EntitlementAnswers.DeliverOtherwise` | api/services/purchases.py:206-239 | a late answer is for review, a rejection fails and frees the key, an unconfirmed payment gives nothing yet, silence changes nothing |
| `EntitlementAnswers.GrantIsExact` | api/services/retained_rights.py:151-228 | a right is granted exactly on a fresh delivery to the successor that the authority names before and after the lock, in the observed scope, for the erased source's free right to a course that exists |
| `EntitlementAnswers.AccessWasGiven` | api/services/purchases.py:237-246 | over every run each access row came from such a delivery or such a grant |
| `EntitlementAnswers.FulfilledWasAnswered` | api/services/purchases.py:229-247 | every fulfilled order had an answer that fulfils it |
| `EntitlementAnswers.OrdersWereAccepted` | api/services/purchases.py:153-163 | no order gets past its offer without the learner's acceptance of its very terms, with both consents |
| `EntitlementAnswers.RightsRecordErasures` | api/services/retained_rights.py:48-77 | every right records the access, started lessons and orders that the erasure of its source found |
| `EntitlementAnswers.GenerationCounts` | api/services/retained_rights.py:22-47 | the generation of a right counts the erasures of learners who used it |
| `EntitlementAnswers.ErasesOneUser` | api/services/user_deletion.py:43-75 | an erasure takes all access of the user, none of anybody else, and reviews the user's open orders alone |
| `SkillGraph.GetSkillDependents` | api/endpoints/skill.py:57-66 | ends on every graph, cyclic or with repeated stack entries, with exactly the skills that depend on the given one |
| `SkillTree.UpdateIsExact` | api/endpoints/skill.py:180-183 | new dependencies are refused if and only if they would close a cycle |
| `SkillTree.CreateIsExact` | api/endpoints/skill.py:120-292 | a skill is created exactly if its id is new, its root exists and its dependencies are known beside it; it has them then, and nothing else changes |
| `SkillTree.UpdateStores` | api/endpoints/skill.py:172-321 | an update that is taken leaves exactly the given dependencies and changes nothing else |
| `SkillTree.UpdateRefusals` | api/endpoints/skill.py:172-183 | an update is taken unless it names something unknown or closes a cycle, and the answer tells which |
| `SkillTree.DeleteIsExact` | api/endpoints/skill.py:204-356 | a deletion takes the skill, every mention of it beside it, and the sub-skills of a root |
| `SkillTree.Skills.Create` | api/endpoints/skill.py:120-292 | the stepwise creation of a root skill or a sub-skill is the step |
| `SkillTree.Skills.UpdateRoot` | api/endpoints/skill.py:172-183 | the stepwise update of a root skill is the step |
| `SkillTree.Skills.UpdateSub` | api/endpoints/skill.py:310-321 | the stepwise update of a sub-skill, among the sub-skills of its root, is the step |
| `SkillTree.Skills.Delete` | api/endpoints/skill.py:204-356 | the stepwise deletion, sub-skills of a root included, is the step |
| `SkillTree.TreeStaysAcyclic` | api/endpoints/skill.py:120-354 | over every run of create, update and delete, one at a time, there is no cycle, and sub-skills depend only on sub-skills of their own root |
| `SkillTree.OverlappingUpdates` | api/endpoints/skill.py:172-183 | two accepted updates that read before either writes leave no cycle if and only if the second would be accepted after the first |
| `SkillTree.OverlappingUpdatesCloseACycle` | api/endpoints/skill.py:172-183 | two concrete updates that do close a cycle |
| `RuntimeClosure.Scan` | scripts/audit_dependencies.py:185-199 | pushes exactly what the packages of a name need with the active extras, or fails exactly when one is malformed |
| `RuntimeClosure.Closure` | scripts/audit_dependencies.py:169-200 | ends with the least set closed under required and extra-selected dependencies, or fails, with a reason, if and only if no such set lies in the lock and is well-formed |
| `RuntimeClosure.JustifiedHasNoClosure` | scripts/audit_dependencies.py:181-199 | a missing package or malformed entry that is named lies in every closed set, so there is no closure |
| `RuntimeClosure.ClosureIsUnique` | scripts/audit_dependencies.py:179-180 | the result does not depend on the order of the worklist |
| `RuntimeClosure.ClosureHoldsRequired` | scripts/audit_dependencies.py:181-199 | the closure holds, with its extras, what the main group but Python requires and what a package in it requires, optional ones where an active extra names them |
| `RuntimeClosure.ClosureHoldsNoMore` | scripts/audit_dependencies.py:181-199 | nothing is in the closure unless the main group or another package in it requires it |
| `RuntimeClosure.NormalizeIsExact` | scripts/audit_dependencies.py:30-31 | normalisation gives a normal name, keeps one, and tells no two names apart that differ in a run of separators or in the case of a letter |
| `AliasGroups.Groups` | scripts/audit_dependencies.py:144-156 | the merge loop ends with disjoint groups of linked names that hold every record |
| `AliasGroups.GroupsAreClasses` | scripts/audit_dependencies.py:144-156 | two names share a group if and only if a chain of records connects them, and the groups cover exactly all ids and aliases |
| `AliasGroups.GroupsAreUnique` | scripts/audit_dependencies.py:147 | the groups do not depend on the processing order |
| `RootDepths.Memo.Depth` | api/services/recommendations.py:67-75 | ends on every graph; the memo it fills step by step is the function of graph, order and roots being visited |
| `RootDepths.DepthIsAChain` | api/services/recommendations.py:63-79 | on every graph and in every order each depth is the length of a real simple chain |
| `RootDepths.LongestUnlessCyclic` | api/services/recommendations.py:64-79 | the depths are the longest simple chains in every processing order if and only if no cycle of two or more roots exists |
| `RootDepths.FirstExceeds` | api/services/recommendations.py:70-75 | a root processed first gets more than each dependency, if it gets its longest chain |
| `RootDepths.TwoRootsInACycle` | api/services/recommendations.py:70-75 | two concrete roots that depend on each other, of which the second gets 0 although it has a chain of two |
| `RootDepths.RootDepths` | api/services/recommendations.py:63-79 | the depths are that function of the processing order |
| `RoomStream.ContinuousRoom` | api/services/rooms.py:579-687 | the passes and the last resort end with exactly the first room of their orders that is available or stops the request, or with the reason why there is none |
| `RoomStream.ChoiceIsExact` | api/services/rooms.py:631-678 | the four passes and the last resort come down to one order: own work, new material, repeats, the room just left; the first unit in it that is available is offered, the first that fails ends the request, and a repeat is begun exactly for finished material without a round in progress |
| `RoomStream.StreamIsComplete` | api/services/rooms.py:579-687 | a room is offered if and only if some room of the direction is available and asked about before every unit that stops the request |
| `RoomStream.CheckDownEndsRequest` | api/services/rooms.py:599-616 | a concrete path where an exercise that cannot be checked ends the request although the next room is available |
| `RoomStream.ResumeFindsNothing` | api/services/rooms.py:655-665 | a practice round in progress is own work, so the pass that resumes rounds meets only what was passed over before |
| `RoomStream.AfterIsLastResort` | api/services/rooms.py:657-678 | the room just left ends a request only when no other room does |
| `RoomStream.NewBeforeRepeats` | api/services/rooms.py:633-656 | while new material is available no repeat is begun, only what is asked about earlier can stop the request, and finished material comes first if and only if a practice round in progress is the first own work that ends it |
| `RoomStream.RoundInProgressComesFirst` | api/services/rooms.py:633-641 | a concrete scope where a practice round in progress is offered although a new room is available |
| `RoomStream.OwnWorkFirst` | api/services/rooms.py:633-641 | while own work elsewhere is available the request ends with such work, and only earlier own work can stop it |
| `RoomOrder.GoesOn` | api/services/rooms.py:643-649 | after a room, new material goes on along its path; what lies before it comes last |
| `RoomOrder.ChosenPathFirst` | api/services/rooms.py:643-649 | the chosen path comes before the others |
| `RoomOrder.PathsInTurn` | api/services/rooms.py:588-590 | the other paths follow in turn, around to the one before the chosen path |
| `RoomOrder.BegunFirst` | api/services/rooms.py:650-651 | without a room just left, what is begun comes first in its path, and else the path's own order counts |
| `RoomOrder.RepeatsGoOn` | api/services/rooms.py:590-593 | repeats go on from the room just left through the whole direction and around to it again |
| `RoomOrder.EndingIsExact` | api/services/rooms.py:679-687 | without a room an outage is raised, else the limit is the reason, then the introductions |
| `DailyLimit.Admissions.CountCharged` | api/services/daily_limit.py:186-190 | the counts are the charged starts of each day |
| `DailyLimit.Admissions.Start` | api/services/daily_limit.py:474-564 | the stepwise admission is the step function |
| `DailyLimit.LimitHolds` | api/services/daily_limit.py:341-380 | every run that enforces a limit on these status and insertion days keeps it on every local day, if and only if every start across midnight is the first on the day it is charged to |
| `DailyLimit.MidnightStart` | api/services/daily_limit.py:535-546 | a concrete start that counts one day and is charged to the next |
| `DailyLimit.ClockStepsBack` | api/services/daily_limit.py:347-380 | a concrete clock that steps back after midnight, on which a limit is exceeded |
| `DailyLimit.StartStays` | api/services/daily_limit.py:513-562 | a lesson has one start that no later step changes, repeats or requests included |
| `DailyLimit.StartedIsNeverRefused` | api/services/daily_limit.py:353-379 | a started lesson is never refused for the limit or an outage again, nor charged a second time |
| `DailyAnswers.LimitIsExact` | api/services/daily_limit.py:341-389 | a live learner's unanswered request is refused for the limit if and only if it is enforced, nothing exempts the learner, the lesson is known to be new, and the day holds at least the limit of charged starts |
| `DailyAnswers.LimitIsUsedUp` | api/services/daily_limit.py:341-389 | different new lessons of one day are all started and charged up to the limit, and the next is refused |
| `DailyAnswers.NoAnswerIsExact` | api/services/daily_limit.py:499-532 | a start gets no answer exactly where access or the lesson's past is unknown and nothing else opens the lesson, or the limit is enforced |
| `DailyAnswers.StartIsTaken` | api/services/daily_limit.py:507-562 | every other start is taken and recorded once, on the day of its insertion |
| `DailyAnswers.ChargeIsExact` | api/services/daily_limit.py:533-546 | a new start is charged exactly where a limit is set, the policy is known not to exempt, and the lesson is known to be new |
| `DailyAnswers.ReceiptIsExact` | api/services/daily_limit.py:485-498 | an answered request is repeated for its own lesson, a conflict for any other, and changes nothing |
| `DailyLimit.ErasureIsFinal` | api/services/daily_limit.py:479-482 | after an erasure every start is refused and no start or receipt of the account is ever there again |
| `Leaderboard.GetLeaderboard` | api/models/xp.py:111-131 | every page is that page of the whole ranking in the order the query got, in which a rank is one more than the participants with strictly more XP |
| `Leaderboard.SnapshotIsExact` | api/models/xp.py:71-84 | with a snapshot exactly its participants are compared, with their own scores |
| `Leaderboard.AboveIsPosition` | api/models/xp.py:126-129 | where the XP drop in an answer, the position is the number of participants with strictly more |
| `Leaderboard.ListingIsUnique` | api/models/xp.py:117-121 | ordered by user id as well, or without ties, the query has one answer only |
| `Leaderboard.PagesConcatenate` | api/models/xp.py:119-122 | then consecutive pages of separate queries make up the one ranking |
| `Leaderboard.PagesFitExactly` | api/models/xp.py:114-122 | consecutive pages always make up the ranking if and only if a snapshot is published or no two participants share sum and last update |
| `Leaderboard.TiedPair` | api/models/xp.py:117 | a concrete tie without a snapshot: one learner is shown twice and the other never |

## Left out

- SHA-256 and UUIDv5 are taken as injective and stand as the values they cover; fresh UUIDs are numbers of an endless supply; UTF-8 is not modelled, texts are code points.
- Canonical.Write: an object key that is no string is not modelled; keys are strings by type.
- EngineRevisions.PublishKeepsRevisions: the field patterns, the size limit and the hash of a server document are one validity predicate with the checks the protocol rests on (bands, thresholds, unique goals, a required task, a case per band).
- EngineTheorems.NothingIsMissing: a unit's offer (enabled engine, active revision, course ownership, premium) is one oracle per request.
- EngineTheorems.XpIsConserved: the administrator's XP edit and the XP of lecture progress do not take the receipts and are outside; XP are unbounded integers, the BIGINT range is not modelled.
- EngineTheorems.ErasureIsFinal: bookmarks, last watch and lecture progress are written without the user guard and are outside.
- Rooms.AchievementIsAbsorbing: the signed grading of the LLM is an oracle; its single-use row and the milestone outbox are not modelled.
- `unit_assessments`, `status` and `settle` as endpoints: their parts (view, lease, evaluation, booking) are steps of the runs.
- Entitlements.Database.Deliver: the shop is taken never to move an accepted order back to an offer; reporting a fulfilled order, timestamps and the stored outcome text are not modelled.
- LearningPlans.PlansAreARegister: titles and progress that `render` adds to an answer are not modelled; an answer is its revision and state.
- DailyLimit.LimitHolds: the limit is fixed during a run; the recorded reason and policy mode of a start are not modelled; the evidence of earlier progress is two oracles, here and in the challenge service.
- RuntimeClosure.Closure: reading TOML, and the fetch of advisories, are outside; requirement names are given after their pattern match.
- AliasGroups.Groups and RootDepths.RootDepths take ids and dependencies in any order; sorting of results is not modelled.
- `suggest`, level functions with square roots, MP4 ranges, caches, tokens, mails, telemetry: inputs, outputs or small facts.
- RoomStream.ContinuousRoom: a unit is taken to answer the same each time one request asks about it.
- SkillTree.TreeStaysAcyclic: the skill endpoints take no lock; edits are taken one at a time, but for the two of `OverlappingUpdates`.
- Leaderboard.GetLeaderboard: the sums and last updates are given as the query groups them; scores do not change between the pages, and ids ascend by code point, not by a collation of the database.
- Isolation levels and lock waits belong to the database: a transaction is atomic under its guard, and nothing is claimed about deadlocks.
