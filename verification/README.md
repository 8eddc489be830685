# Verified model of two controllers, a hash table, a channel and an informer factory

This project models, in Dafny 4.11, the algorithms of the repository that are hard to get right, and proves
what they promise. `dafny verify dfyconfig.toml` checks all of it.

**CronJob controller** (`CronTime`, `CronSchedule`, `CronJob`, `CronHistory`, `CronReconcile`, `CronRuns`,
`CronVerdicts`, `CronForgetful`, `CronGuarantees`). The reconcile step is imperative code on a cluster of pods, proved against
a decision and an effect; runs of the controller interleave such steps with pods that change phase, vanish some
time after their deletion was accepted, and a clock that does not go back. The controller's only memory is the
annotation on the pods that are left, and the main theorems say when this is enough to start no scheduled time
twice. Over all runs with fresh listings it is enough exactly for jobs that can start nothing or have no history
limit: with any limit some run fills the history, the clean-up sorts the newest finished pod to the front because it
has no start time, and the time is started again. Call a run *orderly* if every listing shows the finished pods of
each class that has a limit with start times in the order of their scheduled times. That is an assumption on what
kubelets report, which nobody can check beforehand. Over orderly runs, memory is enough exactly unless the job can
start and has a limit of one. And if listings may lag behind, it is enough only for jobs that can start nothing.

- Instants are nanoseconds; the annotation holds whole seconds. A schedule is its `Next` function, assumed
  (where a lemma says `Lawful`) to give the least point after its argument, on a whole second.
- The cluster's answers (listing, failed or half-failed API calls, the three clock readings) are inputs of a step.
- `CronVerdicts` tells every verdict of a step, the pod it creates, its requeue time and its status by schedule points,
  pods and calls; with `d` the deadline in seconds, a point is missed only if it is less than `d` seconds old.
- The code and its documentation differ: the deletion loops (lines 133 and 149) use `<=`, so a limit of `n` keeps
  `n - 1` pods once it is reached, and a limit of zero runs past the end of the list. The model follows the code.
- A starting deadline of zero seconds leaves no start time at all, and one above 9223372036 seconds overflows the
  nanosecond product; `StartsExactly` says which jobs can start anything, and `StartsByDeadline` which deadlines allow it.

**Go map** (`Bits`, `MapCells`, `MapTable`, `MapBuckets`, `GoMap`). Buckets are objects linked by overflow
pointers. The invariant is sharper than the suffix law the searches rely on: a cell is `emptyRest` exactly when
no cell from it on is occupied, which makes the early exits sound and the marks unique. The markers 0 to 4, the
least hash byte 5, the bucket size 8 and the load factor 13/2 are those of the Go runtime.

**Go channel** (`ChanSpec`, `Chan`). The whole state of a channel, buffer and wait queues included, is a function
of two histories, the accepted sends and the accepted receives. First-in-first-out, the wait-queue rules and
draining before close follow for every interleaving of critical sections, and so does the answer of every operation,
told by the histories alone. The comment on the lock-free fast path
of a non-blocking send turns out to hold exactly for buffered channels; for the two reads in the other order, which
that comment mentions too, it holds for all. For a receive the order of the reads matters on every channel, as its
comment says. The helpers `full` and `empty` are not in the listing: they are modelled
as their names and the surrounding comments say.

**Greeter controller** (`Greeter`, `GreeterRuns`, `Greetings`). Any number of workers act step by step on arbitrarily old
snapshots; the server checks versions. Users may edit, delete and recreate Greeters meanwhile. Phases only move on
and skip nothing, and every greeting and every final phase is explained by the past. "A Greeter greets once" is false
of the code: after each deletion of its runner pod the same Greeter can greet again, any number of times, whether it
is still stored as Running (then a worker need only read it as it is) or has reached a final phase (then a worker must
still hold or read an older version). What is true is that greetings and deletions of the runner pod add up, and
exactly when another greeting is possible. All workers share one cache, which goes back only when the controller
restarts; the exact condition is given with restarts, when any old version may be read, and without, when none may be
read that is older than what was read before.

**Informer factory** (`Factory`). Creation on demand, start once, shutdown and wait.

## Model

| member | source | states |
|---|---|---|
| CronSchedule.GetNextScheduledTime | kubernetes/programming-k8s/programming_k8s/circle/internal/controller/cronjob_controller.go:299-351 | the walk over missed starts, for any `Next` function at all, equals its recursive specification, whose budget allows 100 starts; the loop terminates even if `Next` does not advance |
| CronSchedule.NextRunMeaning | kubernetes/programming-k8s/programming_k8s/circle/internal/controller/cronjob_controller.go:321-350 | for a lawful schedule: an error exactly when more than 100 points lie in (earliest, now]; otherwise the greatest point there, or the zero time if there is none, and the least point after now |
| CronSchedule.WalkMeaning | kubernetes/programming-k8s/programming_k8s/circle/internal/controller/cronjob_controller.go:327-348 | at every stage of the walk: it gives up iff the points still ahead outnumber the remaining budget, and otherwise ends at the greatest of them |
| CronSchedule.DriedUpSchedule | kubernetes/programming-k8s/programming_k8s/circle/internal/controller/cronjob_controller.go:328-347 | a schedule that can never fire again (`Next` answers with the zero time) is reported as too many missed jobs |
| CronJobs.NewPodForCronJob | kubernetes/programming-k8s/programming_k8s/circle/internal/controller/cronjob_controller.go:230-254 | the pod carries copies of the template's labels and annotations, and the scheduled time over any annotation of that name in the template |
| CronJobs.ScheduleTimeRoundTrip | kubernetes/programming-k8s/programming_k8s/circle/internal/controller/cronjob_controller.go:247-294 | the time written into the annotation is read back unchanged iff it is a whole second, whatever the template carries |
| CronJobs.LatestIsMaximum | kubernetes/programming-k8s/programming_k8s/circle/internal/controller/cronjob_controller.go:81-106 | the recomputed last scheduled time is the maximum of the creation time and all readable annotations |
| CronHistory.LessIsStrictWeakOrder | kubernetes/programming-k8s/programming_k8s/circle/internal/controller/cronjob_controller.go:126-131 | the sort comparator is a strict weak order with unset start times first |
| CronHistory.SortByStartTime | kubernetes/programming-k8s/programming_k8s/circle/internal/controller/cronjob_controller.go:126-147 | sorting in place: sorted by the comparator and a permutation |
| CronHistory.PrefixIsOldest | kubernetes/programming-k8s/programming_k8s/circle/internal/controller/cronjob_controller.go:126-139 | the deleted prefix of the sorted list consists of pods none of which is newer than a pod that stays |
| CronHistory.KeptAsWritten | kubernetes/programming-k8s/programming_k8s/circle/internal/controller/cronjob_controller.go:133-139 | with the bound `i <= n - limit`, n pods are kept if n < limit, limit - 1 if 1 <= limit <= n, none if limit is zero |
| CronReconcile.Cluster.PruneAsDocumented | kubernetes/programming-k8s/programming_k8s/circle/api/v1/cronjob_types.go:74-84 | the clean-up as documented, written with the bound `i < n - limit`: it marks exactly the oldest pods in excess of the limit, keeps min(n, limit) of them for every limit, and never runs past the end |
| CronHistory.NewestSurvives | kubernetes/programming-k8s/programming_k8s/circle/internal/controller/cronjob_controller.go:125-156 | a limit of two or more never deletes the pod that is newer than all others of its class |
| CronReconcile.Cluster.Prune | kubernetes/programming-k8s/programming_k8s/circle/internal/controller/cronjob_controller.go:125-140 | the in-place sort and delete loop: it marks exactly the oldest pods, as many as the bound says, and panics exactly for a limit of zero or less |
| CronReconcile.Cluster.ReplaceActive | kubernetes/programming-k8s/programming_k8s/circle/internal/controller/cronjob_controller.go:199-207 | deletes active pods in order up to and including the first one whose deletion fails |
| CronReconcile.Cluster.Classify | kubernetes/programming-k8s/programming_k8s/circle/internal/controller/cronjob_controller.go:81-102 | one pass gives the three classes in list order and the last scheduled time |
| CronReconcile.Cluster.Reconcile | kubernetes/programming-k8s/programming_k8s/circle/internal/controller/cronjob_controller.go:59-226 | the whole step: its verdict, its whole effect on pods, deletion marks, status and started times, and a clean-up that takes the oldest pods |
| CronReconcile.Cluster.Launch | kubernetes/programming-k8s/programming_k8s/circle/internal/controller/cronjob_controller.go:158-225 | suspension, planning, deadline, policy, replacement and creation, in that order, with the requeue time of each exit |
| CronVerdicts.DeadlineInSeconds | kubernetes/programming-k8s/programming_k8s/circle/internal/controller/cronjob_controller.go:184-191 | up to 9223372036 seconds the window of a deadline and the check against it are as wide as the seconds say: a point counts as missed iff it is less than the deadline old, and as late iff it is more than the deadline old |
| CronVerdicts.PlanMeaning | kubernetes/programming-k8s/programming_k8s/circle/internal/controller/cronjob_controller.go:299-351 | planning gives the latest schedule point that is after the creation and after everything the listed pods are for, not in the future and within the deadline; an error iff there are more than 100 such points; and the first point after now |
| CronVerdicts.VerdictWithoutPlan | kubernetes/programming-k8s/programming_k8s/circle/internal/controller/cronjob_controller.go:63-163 | each verdict that ends a step before planning is given iff its call failed, a limit is zero or less, or the job is suspended, in this order of precedence |
| CronVerdicts.VerdictWithoutRun | kubernetes/programming-k8s/programming_k8s/circle/internal/controller/cronjob_controller.go:168-181 | a step that plans ends for lack of times iff the schedule does not parse or more than 100 points were missed, and idle iff none was |
| CronVerdicts.VerdictOnRun | kubernetes/programming-k8s/programming_k8s/circle/internal/controller/cronjob_controller.go:183-219 | for the latest missed point: too late iff its deadline has passed, else blocked iff the policy is Forbid and some listed pod is active, else stopped iff the policy is Replace and the deletion of some active pod fails, else not built, not created or created as the calls say |
| CronVerdicts.DuePointIsStarted | kubernetes/programming-k8s/programming_k8s/circle/internal/controller/cronjob_controller.go:183-254 | the latest missed point is started iff nothing stands in its way and the create call takes effect, under any policy: the cluster then gains exactly one pod, with the template's labels, annotations and spec and the point as its time, and otherwise none |
| CronVerdicts.NothingElseIsStarted | kubernetes/programming-k8s/programming_k8s/circle/internal/controller/cronjob_controller.go:158-219 | in every other case a step creates nothing |
| CronVerdicts.OnlyReplaceMarksActive | kubernetes/programming-k8s/programming_k8s/circle/internal/controller/cronjob_controller.go:195-207 | under Replace, a due run that gets past the deletions has marked every active pod whose deletion was not lost; no active pod is marked in any other case |
| CronVerdicts.ReplacedInOrder | kubernetes/programming-k8s/programming_k8s/circle/internal/controller/cronjob_controller.go:199-207 | the deletion of an active pod is asked for iff no deletion before it in the list failed |
| CronVerdicts.KeptByStep | kubernetes/programming-k8s/programming_k8s/circle/internal/controller/cronjob_controller.go:125-156 | how many finished pods of each class a step leaves, for every limit, suspended or not |
| CronVerdicts.SweptAreMarked | kubernetes/programming-k8s/programming_k8s/circle/internal/controller/cronjob_controller.go:133-155 | what the clean-up takes is marked for deletion unless the call is lost |
| CronVerdicts.RequeuedForNextPoint | kubernetes/programming-k8s/programming_k8s/circle/internal/controller/cronjob_controller.go:176-225 | every verdict with a requeue time wakes the job up exactly at the first schedule point after planning, or after the longest duration there is |
| CronVerdicts.StatusMeaning | kubernetes/programming-k8s/programming_k8s/circle/internal/controller/cronjob_controller.go:105-123 | the status names exactly the active pods a reference can be made to, in the order of the list, and the latest time anything was created for |
| CronRuns.PlannedRun | kubernetes/programming-k8s/programming_k8s/circle/internal/controller/cronjob_controller.go:168-181 | the planned run is the latest schedule point up to now and later than anything a listed pod was created for |
| CronRuns.LastStartKept | kubernetes/programming-k8s/programming_k8s/circle/internal/controller/cronjob_controller.go:125-156 | with an orderly listing, the clean-up never takes the pod that remembers the last start, if limits are unset or at least two |
| CronRuns.StepKeepsLastStart | kubernetes/programming-k8s/programming_k8s/circle/internal/controller/cronjob_controller.go:195-219 | with an orderly listing, a step that creates nothing (Replace followed by a failed create included) leaves the last start remembered by a pod or overtaken by a later point |
| CronRuns.StepKeepsInv | kubernetes/programming-k8s/programming_k8s/circle/internal/controller/cronjob_controller.go:59-226 | one reconcile step on an orderly listing keeps the inductive invariant |
| CronRuns.AtMostOnce | kubernetes/programming-k8s/programming_k8s/circle/internal/controller/cronjob_controller.go:59-226 | over all orderly runs with limits unset or at least two (every run is orderly if both are unset): started times are strictly increasing schedule points after the creation and not in the future, so no scheduled time is started twice |
| CronForgetful.AtMostOnceExactly | kubernetes/programming-k8s/programming_k8s/circle/internal/controller/cronjob_controller.go:125-219 | for every sane job, over all runs with fresh listings: no run ever starts a scheduled time twice if and only if it is not the case that the job can start at all and has a history limit |
| CronForgetful.AtMostOnceInOrderlyRuns | kubernetes/programming-k8s/programming_k8s/circle/internal/controller/cronjob_controller.go:125-219 | for every sane job, over the orderly runs: none ever starts a scheduled time twice if and only if it is not the case that the job can start at all and has a history limit of one |
| CronForgetful.AtMostOnceWithLateListings | kubernetes/programming-k8s/programming_k8s/circle/internal/controller/cronjob_controller.go:75-219 | for every sane job, over the runs in which a listing may show the pods as they were at any earlier moment: none ever starts a scheduled time twice if and only if the job can start nothing at all |
| CronForgetful.StartsTwice | kubernetes/programming-k8s/programming_k8s/circle/internal/controller/cronjob_controller.go:126-219 | for every job that can start and every limit n + 1 of it: a run that starts points 0 to n, sweeps away the newest pod, whose start time is unset, and starts point n again; an orderly one if n is zero |
| CronForgetful.StartsOnlyIfCanStart | kubernetes/programming-k8s/programming_k8s/circle/internal/controller/cronjob_controller.go:158-219 | a pod is only ever created if the schedule parses, the job is not suspended, no limit is zero, and the deadline is unset or its nanosecond product is positive as an int64 |
| CronForgetful.StartsExactly | kubernetes/programming-k8s/programming_k8s/circle/internal/controller/cronjob_controller.go:158-219 | for every sane job: some run starts something if and only if the schedule parses, the job is not suspended, no limit is zero, and the deadline is unset or its nanosecond product is positive as an int64 |
| CronForgetful.StartsByDeadline | kubernetes/programming-k8s/programming_k8s/circle/internal/controller/cronjob_controller.go:184-191 | of a job that starts something without a deadline: with one of 1 to 9223372036 seconds some run still does, with zero or 9223372037 to 18446744073 seconds none ever does |
| CronGuarantees.StartedExactly | kubernetes/programming-k8s/programming_k8s/circle/internal/controller/cronjob_controller.go:81-225 | on smooth orderly runs of a steady job, under any policy (smooth under Replace: the deletions succeed; under Forbid: no active pod is listed), a point after the creation is started iff some step read the clock between that point and the next one |
| CronGuarantees.ExactlyOnce | kubernetes/programming-k8s/programming_k8s/circle/internal/controller/cronjob_controller.go:81-225 | on smooth orderly runs of a steady job: if every wake-up comes before the second point after the previous one, the started times are exactly the points in (creation, last wake-up], each once |
| CronGuarantees.SurvivorsTellLastStart | kubernetes/programming-k8s/programming_k8s/circle/internal/controller/cronjob_controller.go:81-106 | at every step of such a run the last scheduled time read off the surviving pods is exactly the last start |
| CronGuarantees.ForbidAllowsOne | kubernetes/programming-k8s/programming_k8s/circle/internal/controller/cronjob_controller.go:195-198 | under Forbid no reachable state has two active pods |
| CronGuarantees.ReplaceLeavesOne | kubernetes/programming-k8s/programming_k8s/circle/internal/controller/cronjob_controller.go:199-219 | under Replace, after a creating step whose deletes took effect, the active pods not about to go are exactly the new one |
| CronGuarantees.CreatedWithinDeadline | kubernetes/programming-k8s/programming_k8s/circle/internal/controller/cronjob_controller.go:184-191 | a pod is created only if its scheduled time plus the deadline is not before the last clock reading, for every deadline of zero or more seconds, overflow included |
| CronGuarantees.TooLateMeansClockMoved | kubernetes/programming-k8s/programming_k8s/circle/internal/controller/cronjob_controller.go:184-191 | the deadline check can fire only if the clock moved since planning |
| CronGuarantees.WedgedForEver | kubernetes/programming-k8s/programming_k8s/circle/internal/controller/cronjob_controller.go:314-348 | without a deadline, once a step finds too many missed jobs, so does every later step of the run, and none creates a pod |
| CronGuarantees.DeadlinePreventsWedge | kubernetes/programming-k8s/programming_k8s/circle/internal/controller/cronjob_controller.go:314-348 | a deadline whose window holds at most 100 points rules that error out |
| Bits.MaskIsRemainder | golang/underlying-principle/8、哈希表及其实现机制/README.md:520-522 | `hash & (2^B - 1)` is the remainder modulo 2^B, so it names one of the 2^B buckets |
| Bits.ShiftedMask | golang/underlying-principle/8、哈希表及其实现机制/README.md:523-527 | masking down one more power of two gives the mask of the table before doubling |
| MapCells.RestIsSuffix | golang/underlying-principle/8、哈希表及其实现机制/README.md:537-541 | every cell after an `emptyRest` cell is `emptyRest` |
| MapCells.TopHashTellsApart | golang/underlying-principle/8、哈希表及其实现机制/README.md:560 | the byte is one of 5 to 255, and two hashes share it only if their top bytes are equal or one is a marker value and the other five more |
| MapCells.MarksAreDetermined | golang/underlying-principle/8、哈希表及其实现机制/README.md:823-854 | the marks are determined by which cells are occupied: there is only one right marking |
| MapCells.SweepEnds | golang/underlying-principle/8、哈希表及其实现机制/README.md:837-854 | when the backwards walk stops, the marks are right and no cell before an occupied one was converted |
| MapCells.ErasedKeepsInv | golang/underlying-principle/8、哈希表及其实现机制/README.md:793-863 | removing a key keeps the chain invariant, removes exactly that key, and leaves every other key where it was |
| MapCells.InsertKeepsInv | golang/underlying-principle/8、哈希表及其实现机制/README.md:612-675 | writing a key into the first empty cell keeps the chain invariant and every other key |
| MapTable.ChainPut | golang/underlying-principle/8、哈希表及其实现机制/README.md:574-686 | a put in the key's own chain is an update of the whole map |
| MapTable.ChainRemove | golang/underlying-principle/8、哈希表及其实现机制/README.md:759-870 | a removal in the key's own chain is a removal from the whole map |
| MapTable.LookupByHome | golang/underlying-principle/8、哈希表及其实现机制/README.md:535-556 | searching the key's own chain answers for the whole map |
| MapTable.OccupiedMatchesEntries | golang/underlying-principle/8、哈希表及其实现机制/README.md:83-103 | as many occupied cells as entries: no key sits in two cells and none is missing |
| MapTable.AnySeedFitsEmpty | golang/underlying-principle/8、哈希表及其实现机制/README.md:856-861 | an emptied table fits every new hash seed |
| MapBuckets.FindCell | golang/underlying-principle/8、哈希表及其实现机制/README.md:534-556 | the search loop with its early exit finds the key's cell, or reports absence only when no cell of the chain holds the key |
| MapBuckets.FindOrReserve | golang/underlying-principle/8、哈希表及其实现机制/README.md:608-661 | the search before an insertion finds the key, or else the first empty cell of the chain, or else that the chain is full |
| MapBuckets.PreviousBucket | golang/underlying-principle/8、哈希表及其实现机制/README.md:843-846 | the search from the front ends at the bucket just before |
| MapBuckets.SweepBack | golang/underlying-principle/8、哈希表及其实现机制/README.md:837-854 | the backwards conversion over singly linked buckets terminates with right marks |
| MapBuckets.ClearCell | golang/underlying-principle/8、哈希表及其实现机制/README.md:809-854 | clearing a cell: the element is zeroed, the key is dropped if it holds pointers, the marks are right again, all other occupied cells are unchanged |
| GoMap.HMap.MakeMap | golang/underlying-principle/8、哈希表及其实现机制/README.md:263-308 | the empty map, with the least B that is not overloaded by the hint, where a hint whose memory overflows or exceeds the limit counts as none |
| GoMap.HintsThatFit | golang/underlying-principle/8、哈希表及其实现机制/README.md:275-279 | an int64 hint is kept iff it is not negative and its buckets fit into memory, and counts as zero otherwise |
| GoMap.LoadFactorAsDocumented | golang/underlying-principle/8、哈希表及其实现机制/README.md:202 | a table counts as overloaded iff it has more than eight elements and more than 6.5 for each bucket |
| GoMap.HMap.MapAccess1 | golang/underlying-principle/8、哈希表及其实现机制/README.md:501-557 | returns the map's element or zero, also right after growth began, and detects a concurrent write |
| GoMap.HMap.BucketFor | golang/underlying-principle/8、哈希表及其实现机制/README.md:520-532 | the bucket to search, by mask, with the fallback to the old buckets while they are not evacuated |
| GoMap.HMap.MapAssign | golang/underlying-principle/8、哈希表及其实现机制/README.md:574-686 | returns the key's cell, zeroed and claimed if the key was new; starts to grow exactly when the key is new and the table overloaded or with too many overflow buckets |
| GoMap.HMap.Put | golang/underlying-principle/8、哈希表及其实现机制/README.md:574-686 | `m[key] = value` updates the map at the key and nowhere else, or starts to grow exactly when the key is new and growth is due |
| GoMap.HMap.MapDelete | golang/underlying-principle/8、哈希表及其实现机制/README.md:759-870 | removes exactly the key, and re-seeds the hash exactly when the last key went |
| GoMap.HMap.HashGrow | golang/underlying-principle/8、哈希表及其实现机制/README.md:702-743 | doubling or same-size growth keeps the table standing for the same map, so every lookup answers as before |
| GoMap.HMap.CountIsOccupied | golang/underlying-principle/8、哈希表及其实现机制/README.md:82-83 | `count` is the number of occupied cells |
| GoMap.HMap.Run | golang/underlying-principle/8、哈希表及其实现机制/README.md:501-870 | any sequence of operations leaves the same map and gives the same answers as a plain map would, up to the first assignment of a new key for which the plain map says that growth is due, and it stops nowhere else |
| ChanSpec.SendKeepsInv | golang/underlying-principle/16、通道与协程间通信/README.md:171-220 | a send keeps the state a function of the two histories |
| ChanSpec.RecvKeepsInv | golang/underlying-principle/16、通道与协程间通信/README.md:325-389 | a receive does too, including receive from a full buffer with a waiting sender |
| ChanSpec.SendAnswers | golang/underlying-principle/16、通道与协程间通信/README.md:169-251 | in every state of every run: a send goes through iff the channel is open and fewer than `cap` accepted sends are without a receive, being matched at once iff a receive waits; otherwise it parks or, not blocking, is refused, or panics iff the channel is closed |
| ChanSpec.RecvAnswers | golang/underlying-principle/16、通道与协程间通信/README.md:322-410 | in every state of every run: a receive answers with a value iff some accepted send is without a receive, the value is that of the first such send, and it is what the history records as delivered to this receiver; otherwise zero iff closed, else it parks or is refused |
| ChanSpec.ClosingAnswers | golang/underlying-principle/16、通道与协程间通信/README.md:325-336 | closing forgets exactly the blocked sends and the waiting receives |
| ChanSpec.Fifo | golang/underlying-principle/16、通道与协程间通信/README.md:169-251 | in every reachable state the i-th value delivered is the i-th accepted send and went to the i-th accepted receive |
| ChanSpec.Conservation | golang/underlying-principle/16、通道与协程间通信/README.md:169-410 | every accepted value is delivered, buffered, or with a blocked sender, in order |
| ChanSpec.WaitQueues | golang/underlying-principle/16、通道与协程间通信/README.md:176-220 | waiting receivers imply an empty buffer and no waiting senders; waiting senders imply a full buffer |
| ChanSpec.DrainsBeforeZero | golang/underlying-principle/16、通道与协程间通信/README.md:325-336 | a receive answers with the zero value iff the channel is closed and every accepted value has been delivered |
| ChanSpec.HistoryGrows | golang/underlying-principle/16、通道与协程间通信/README.md:169-410 | what was delivered stays delivered; a closed channel stays closed and accepts nothing more |
| ChanSpec.SendFastPathExactly | golang/underlying-principle/16、通道与协程间通信/README.md:144-162 | the lock-free refusal of a non-blocking send is what the locked path would have said at some moment in between, for all runs, iff the channel is buffered |
| ChanSpec.ClosingUnderFastPath | golang/underlying-principle/16、通道与协程间通信/README.md:144-162 | the run that defeats the comment on an unbuffered channel: closed while a receiver waits |
| ChanSpec.ReorderedSendRight | golang/underlying-principle/16、通道与协程间通信/README.md:144-162 | with the two lock-free reads of a send in the other order, the refusal is right on every channel: the locked path would have blocked at the first read |
| ChanSpec.RecvFastPathRight | golang/underlying-principle/16、通道与协程间通信/README.md:285-316 | the lock-free exits of a non-blocking receive are right on every channel |
| ChanSpec.ReorderedRecvWrong | golang/underlying-principle/16、通道与协程间通信/README.md:285-316 | with the two lock-free reads of a receive in the other order, the refusal is wrong on channels of every capacity: in some run the channel is open with a value on offer, is closed and drained, and at no moment in between would the locked path have refused |
| Channels.WindowPop | golang/underlying-principle/16、通道与协程间通信/README.md:351-363 | taking from the ring at the receive index removes the oldest value, across the wrap-around |
| Channels.WindowRotate | golang/underlying-principle/16、通道与协程间通信/README.md:338-346 | replacing the head of a full ring makes the new value the youngest |
| Channels.HChan.ChanSend | golang/underlying-principle/16、通道与协程间通信/README.md:127-253 | does exactly one send step of the specification, and names the receiver it served |
| Channels.HChan.ChanRecv | golang/underlying-principle/16、通道与协程间通信/README.md:269-411 | does exactly one receive step of the specification, and names the sender it released |
| Channels.HChan.Put | golang/underlying-principle/16、通道与协程间通信/README.md:183-197 | the value goes to the end of the ring's contents |
| Channels.HChan.Take | golang/underlying-principle/16、通道与协程间通信/README.md:349-366 | the oldest value is taken and its slot cleared |
| Channels.HChan.Recv | golang/underlying-principle/16、通道与协程间通信/README.md:338-346 | the oldest value is taken and the waiting sender's value joins the end |
| Greeters.ApiServer.SyncGreeter | kubernetes/programming-k8s/programming_k8s/greeter/internal/greeter/controller.go:202-292 | one whole sync: its effect on the server and its answer |
| Greeters.SyncAnswers | kubernetes/programming-k8s/programming_k8s/greeter/internal/greeter/controller.go:202-292 | an error iff the schedule does not parse, the runner's name is taken when the pod must be created, the pod is not controlled by the Greeter, or a new phase had to be written and what was read is out of date; a delay iff not running and not due, and then just until due |
| Greeters.OnlySyncedChanges | kubernetes/programming-k8s/programming_k8s/greeter/internal/greeter/controller.go:202-292 | a sync that ends with an error or a delay has changed nothing |
| Greeters.SyncedMeans | kubernetes/programming-k8s/programming_k8s/greeter/internal/greeter/controller.go:202-292 | a sync that ends well has stored the new phase, if there was one, in a new version and changed nothing else of the Greeter; has created the runner pod with its owner and message, if it was missing; and has changed nothing else |
| Greeters.ApiServer.UpdateStatus | kubernetes/programming-k8s/programming_k8s/greeter/internal/greeter/controller.go:279-285 | the status is written iff the version is current, and nothing else of the Greeter changes |
| GreeterRuns.SyncIsItsSteps | kubernetes/programming-k8s/programming_k8s/greeter/internal/greeter/controller.go:197-292 | taken without interruption, the steps of a worker do to the server what `syncGreeter` does |
| GreeterRuns.WriteStatusKeeps | kubernetes/programming-k8s/programming_k8s/greeter/internal/greeter/controller.go:277-285 | a version-checked status write keeps the server's history in order, however old the snapshot |
| GreeterRuns.EventKeepsInv | kubernetes/programming-k8s/programming_k8s/greeter/internal/greeter/controller.go:202-292 | every step of any worker, user, pod or clock keeps the invariant |
| GreeterRuns.PhaseSteps | kubernetes/programming-k8s/programming_k8s/greeter/internal/greeter/controller.go:212-275 | from each state of a run to the next, a stored phase stays, or goes from unset to Running, or from Running to a final phase |
| GreeterRuns.RunsInBetween | kubernetes/programming-k8s/programming_k8s/greeter/internal/greeter/controller.go:212-275 | a Greeter whose phase was unset at one moment of a run and final at a later one was stored as Running at some moment in between |
| GreeterRuns.PhaseOnlyMovesOn | kubernetes/programming-k8s/programming_k8s/greeter/internal/greeter/controller.go:212-275 | over any stretch of any run with stale caches, the stored phase never goes back, and a final phase never changes |
| GreeterRuns.ControllerKeepsSpecs | kubernetes/programming-k8s/programming_k8s/greeter/internal/greeter/controller.go:277-285 | no controller step changes a Greeter's schedule, message or uid, or any existing pod |
| GreeterRuns.NoEarlyGreeting | kubernetes/programming-k8s/programming_k8s/greeter/internal/greeter/controller.go:219-253 | a pod controlled by a Greeter implies that a not yet running version of it was due on an earlier clock reading, and that a Running version of it carries the pod's message |
| GreeterRuns.NoUnexplainedEnd | kubernetes/programming-k8s/programming_k8s/greeter/internal/greeter/controller.go:267-275 | a final phase implies that a pod controlled by the same uid was in that phase |
| Greetings.GreetsAgainOnlyAfterDeletion | kubernetes/programming-k8s/programming_k8s/greeter/internal/greeter/controller.go:245-257 | over all runs, two creations of a runner pod under one key have a deletion of that pod between them |
| Greetings.GreetingsAddUp | kubernetes/programming-k8s/programming_k8s/greeter/internal/greeter/controller.go:245-257 | over all runs: the runner pods created under a key, and foreign pods that took its name, are as many as the deletions of such a pod and the one that is there |
| Greetings.GreetingsBounded | kubernetes/programming-k8s/programming_k8s/greeter/internal/greeter/controller.go:245-257 | over all runs: at most one greeting per key more than deletions of its runner pod |
| Greetings.AnotherGreetingExactly | kubernetes/programming-k8s/programming_k8s/greeter/internal/greeter/controller.go:202-292 | from every state of every run, with restarts of the cache or without: the controller can greet under a key once more, with no help but the clock, if and only if no pod has the runner's name, and either a worker holds a Running version of that key or can still read one, or the stored version is not yet running and has a schedule |
| Greetings.StoredRunningGreets | kubernetes/programming-k8s/programming_k8s/greeter/internal/greeter/controller.go:237-257 | over all runs: while a Greeter is stored as Running and no pod has its runner's name, the sync of an idle worker that reads the stored version, without going back, greets |
| Greetings.GreetsOften | kubernetes/programming-k8s/programming_k8s/greeter/internal/greeter/controller.go:202-292 | for every key, schedule, message, n >= 1 and phase that is Running or final: one run, from the empty server on, with n marks in it; at mark k the only Greeter ever created is stored with that phase, has greeted k times and has its runner pod, and no read has shown an older version than one before |
| Factories.StartedAtMostOnce | kubernetes/programming-k8s/programming_k8s/greeter/pkg/generated/informers/externalversions/factory.go:114-136 | over all interleavings, each type is started at most once, only with an informer, and the wait count equals the running goroutines |
| Factories.OverTime | kubernetes/programming-k8s/programming_k8s/greeter/pkg/generated/informers/externalversions/factory.go:114-189 | a type keeps its informer for life; nothing is started once shutdown is flagged; nothing runs once a Shutdown has returned |
| Factories.StartStartsAll | kubernetes/programming-k8s/programming_k8s/greeter/pkg/generated/informers/externalversions/factory.go:114-136 | over all runs, right after Start every type with an informer is started, and exactly the ones that were not gain one launch and one running goroutine; on a factory that is shutting down nothing happens |
| Factories.OnlyStartStarts | kubernetes/programming-k8s/programming_k8s/greeter/pkg/generated/informers/externalversions/factory.go:114-145 | nothing but Start starts anything, and goroutines end one at a time |
| Factories.InformerForMakesOne | kubernetes/programming-k8s/programming_k8s/greeter/pkg/generated/informers/externalversions/factory.go:170-189 | a request for an informer makes one iff the type has none, and touches no other type |
| Factories.ResyncAsConfigured | kubernetes/programming-k8s/programming_k8s/greeter/pkg/generated/informers/externalversions/factory.go:181-186 | in every state each informer has the resync period configured for its type, or else the default |
| Factories.ReturnsWhenDone | kubernetes/programming-k8s/programming_k8s/greeter/pkg/generated/informers/externalversions/factory.go:138-145 | Shutdown can return iff the factory is flagged and no goroutine runs |
| Factories.SharedInformerFactory.StartAll | kubernetes/programming-k8s/programming_k8s/greeter/pkg/generated/informers/externalversions/factory.go:114-136 | unless shutting down, afterwards exactly the types with an informer are started, and those that were not gain one launch, one running goroutine and one count of the wait group each |
| Factories.SharedInformerFactory.ForType | kubernetes/programming-k8s/programming_k8s/greeter/pkg/generated/informers/externalversions/factory.go:170-189 | returns the type's informer, making it with its resync period only if there is none |
| Factories.SharedInformerFactory.WaitForCacheSync | kubernetes/programming-k8s/programming_k8s/greeter/pkg/generated/informers/externalversions/factory.go:147-166 | reports on exactly the types started so far |

## Left out

- Cron expression parsing and calendar search: a schedule is given by its `Next` function, or does not parse.
- CronSchedule.NextRunMeaning: schedules of the form `@every d`, which cron v1.2.0 also accepts, are not lawful, since their `Next` depends on its argument; for them only `GetNextScheduledTime`, which holds for any `Next`, applies.
- CronRuns.AtMostOnce: speaks of orderly runs, because it is false of others; `AtMostOnceExactly` gives the runs and jobs.
- CronRuns.LastStartKept: needs an orderly listing of each class with a limit, since a late or missing start time moves the newest pod to the front.
- CronRuns.StepKeepsLastStart: needs an orderly listing, as above.
- CronRuns.StepKeepsInv: needs an orderly listing, as above.
- CronGuarantees.StartedExactly: speaks of orderly runs, as `AtMostOnce` does.
- CronGuarantees.ExactlyOnce: speaks of orderly runs, as `AtMostOnce` does.
- Stale pod listings of the CronJob controller: the other run theorems assume that a successful list shows the pods there are, because `AtMostOnceWithLateListings` shows what happens otherwise; the step itself is modelled for any listing.
- Pods of a CronJob created or deleted by others, and changes to its spec during a run.
- Kubernetes clients, informer transport, work queue, rate limiter, leader election, event recorder and logging; `processNextWorkItem` and the enqueue functions only decide when a sync runs.
- `sort.Slice`: any sort will do; the model contains one, and everything else uses only that its result is sorted and a permutation.
- RFC 3339 text: an annotation is a number of whole seconds or some other text.
- GoMap.HMap.MapAssign: ends where growth has started, because `growWork` and `evacuate` are not part of the listing; so writes and deletes are modelled for a table that is not growing, and reads also for one that has just begun to grow. An assignment that started growth is still in progress there.
- GoMap.HMap.Put: the value is not stored when growth starts, because the retry after growing goes through `growWork`.
- GoMap.HMap.MapDelete: deletion from a growing table is not modelled, because it goes through `growWork`.
- Key equality of the map is plain equality: keys unequal to themselves, keys overwritten on update, and hash functions that panic are not modelled.
- A bucket's three inline arrays are fields holding sequences, since Go arrays are values inside the bucket; pointer arithmetic, indirect keys and elements, preallocated overflow buckets and the nil map are not modelled.
- The overflow-bucket heuristic of the map is an input, since its counter is approximate; iteration flags are left out.
- `send`, `recv` and `closechan` are not part of the channel listing; they follow its comments and the sections "Channel types" and "Close" of the Go specification. The wait queues are sequences; `select`, nil channels, parking, profiling and stack copying are left out.
- The memory model below the channel lock: a critical section is one step, and each lock-free read of the fast paths sees one reachable state.
- Greeter: a phase string other than the five known ones, and forged owner references on foreign pods.
- Informer factory options, `ForResource`, and the panics of a misused wait group.
