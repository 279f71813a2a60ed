# QuantumFlow: verified models of its stateful algorithms

QuantumFlow is a distributed LLM inference platform. This project models the parts of it whose
promises range over whole runs, and proves what those parts guarantee:

- **Leader lease** (`StateStore`, `LeaderElection`, `LeaderLease`): any number of nodes race for one
  Redis lock with a lifetime, renew it, lose it, step down and vote.
- **Request queue** (`BinaryHeap`, `PriorityQueue`): a heap with removal from the middle and an
  anti-starvation rule.
- **Scheduler** (`NodeResource`, `Scheduler`, `Quarantine`): the life cycle of a request, gang
  reservation of GPU memory, bounded retry, isolation of failing nodes.
- **Rate limiters** (`TokenBucket`, `TenantLimits`, `SlidingWindow`).
- **KV blocks** (`BlockPool`, `EngineManager`, `EvictionPlan`): the paged block allocator, its use by
  interleaved generations, and the plan for making room.
- **Shared work queue** (`TaskQueue`): any number of fetchers on one Redis queue.
- **Selection and transformation** (`NodeSelection`, `BatchFlush`, `Failover`).

`Sorting`, `Orders`, `Strings` and `Wrappers` hold what several of them need.

How to read a module: specification functions (or, where the source may choose, a relation between
states) say what one uninterrupted stretch of an operation does; a class with the source's fields
carries methods that change them step by step and are proved equal to those functions; lemmas state
what holds in every state of every run. Times, tokens and sizes in GB are reals; other counts are
unbounded integers. Clocks are monotone, and every random draw, clock reading and answer from
outside (strategy, worker, inference function, health) is a parameter.

Check the whole project with `dafny verify dfyconfig.toml`.

## Where the code does not do what its text says

Each of these is proved, and where a promise holds under a condition, so is that.

- The leader record can name a node that is not the lock owner: `LeaderLease.RecordStep` gives the one
  step that does it, `LeaderLease.RecordCanGoWrong` and `LeaderLease.RecordCanGoWrongBySelf` a run each,
  `LeaderLease.RecordHolds` when it cannot happen.
- A vote answered after a wait can carry a later term than the candidate asked for, so grants counted by
  the asked term can double (`LeaderLease.AnswerCanCarryLaterTerm`); counted by the answered term they cannot.
- The request queue promises that old low-priority work is not starved; while work of priority below 5 is
  queued, nothing else is ever taken (`PriorityQueue.LowTakenOnlyAlone`, `PriorityQueue.LowPriorityStarves`). Reaching the fairness threshold
  switches the rescue of timed-out work off instead of on (`PriorityQueue.RequestQueue.NextIndex`).
- Reserving GPU memory counts a request's total on each of its GPUs, so memory that is free is refused
  (`NodeResource.RefusesWhatFits`; exactly when not: `NodeResource.EffectiveIsFree`).
- Checking all GPUs before reserving any oversells when a plan names a GPU twice: `Scheduler.OversoldByRepeat`
  gives the run, `NodeResource.CheckSuffices` the exact condition.
- A request can be counted both successful and failed: closing the HTTP client inside the `try` that handles
  dispatch errors can raise after the results were counted (`Scheduler.CountedTwice`; `Scheduler.Conservation`
  gives the balance with that error term).
- The scheduler's text speaks of consecutive failures of a node; what counts is three within 60 s
  (`Quarantine.TrippedIffThreeClose`), so failing in a row is neither needed nor enough
  (`Quarantine.InARowIsNotNeeded`, `Quarantine.InARowIsNotEnough`).
- Within one priority the Redis queue hands out the newest request first (`TaskQueue.ScoreOrder`, `TaskQueue.FetchedInOrder`).
- The eviction score's description says that low scores go first; the highest go first
  (`EvictionPlan.OlderAndLargerFirst`).
- Failover after the loss of a mere secondary demotes a healthy primary (`Failover.PrimaryMovesRegardless`).
- A tenant whose bucket was evicted starts with a full one again, so its limit fails
  (`TenantLimits.TwoBucketsAreNot`). `TenantLimits.TenantBound` gives what holds instead, and
  `TenantLimits.PlainLimitHoldsWhen` the threshold: one bucket. A changed quota waits for the next bucket
  (`TenantLimits.QuotaWaits`, `TenantLimits.TenantBudget`).

## Model

| member | source | states |
|---|---|---|
| StateStore.NodeStateStore.AcquireLock | quantumflow/failover/state_store.py:270-303 | the lock is taken exactly when no live lock exists, with expiry now + ttl; otherwise nothing changes |
| StateStore.NodeStateStore.ReleaseLock | quantumflow/failover/state_store.py:305-343 | deletes the live lock of the caller and of nobody else |
| StateStore.NodeStateStore.ExtendLock | quantumflow/failover/state_store.py:365-401 | moves the expiry of the caller's own live lock; anybody else is refused |
| StateStore.NodeStateStore.GetLeader | quantumflow/failover/state_store.py:470-490 | the stored record, or (none, 0) |
| LeaderElection.LeaderElector.RunForElection | quantumflow/failover/leader_election.py:154-163 | candidacy, next term and self-vote; a candidate does nothing |
| LeaderElection.LeaderElector.EndElection | quantumflow/failover/leader_election.py:187-197 | an election without a majority ends the candidacy and changes nothing else |
| LeaderElection.LeaderElector.TakeLeadership | quantumflow/failover/leader_election.py:235-274 | leads exactly if no live lock existed, and then holds the lock until now + ttl, is named in the record and has a tracked loop; refused, it only ends its candidacy |
| LeaderElection.LeaderElector.LoseLeadership | quantumflow/failover/leader_election.py:334-350 | a leader ends leading without the lock in the node or in the store, and the tracked loop ends, up to the wait for it; anybody else's lock and the record stay |
| LeaderElection.LeaderElector.FinishLosing | quantumflow/failover/leader_election.py:350-354 | after the wait the reference to the heartbeat task is dropped, whichever loop it names by then |
| LeaderElection.LeaderElector.Heartbeat | quantumflow/failover/leader_election.py:292-332 | one turn of a heartbeat loop, tracked or not: the lease is extended below half its lifetime, the record written unless that failed, leadership kept exactly if healthy and not refused the extension; a tracked loop that gives up leadership leaves a wait on itself behind |
| LeaderElection.LeaderElector.RenewLeadership | quantumflow/failover/leader_election.py:366-392 | true exactly for a leader that owns the live lock; then both the lock and the local expiry move to now + ttl |
| LeaderElection.LeaderElector.VoteForCandidate | quantumflow/failover/leader_election.py:394-445 | without interruption: granted exactly in a later term, or in this one to the candidate voted for or to the first; older terms leave everything as it was; a grant is for the asked term and is remembered |
| LeaderElection.LeaderElector.MoveToTerm | quantumflow/failover/leader_election.py:428-445 | its first half: a later term is entered with no vote and no candidacy, and leadership is given up |
| LeaderElection.LeaderElector.CastVote | quantumflow/failover/leader_election.py:415-426 | its second half, whatever ran during the wait: granted exactly to the candidate voted for or to the first one, with the term of that later moment |
| LeaderElection.LeaderElector.Check | quantumflow/failover/leader_election.py:456-470 | true exactly for a leader with the lock whose lease has not run out; a leader whose lease has run out gives up leadership and its lock |
| LeaderElection.LeaderElector.HaltHeartbeat | quantumflow/failover/leader_election.py:119-124 | stop cancels the tracked loop |
| LeaderElection.LeaderElector.HaltRelease | quantumflow/failover/leader_election.py:126-129 | after that wait, stop releases the lock if it is held |
| LeaderLease.GrantsRecorded | quantumflow/failover/leader_election.py:154-163 | exactly the votes granted are recorded, a candidate's own vote in its next term included, under the term asked and the term answered |
| LeaderLease.StepKeepsInv | quantumflow/failover/leader_election.py:154-470 | every step of every node keeps: a lease believed live is backed by the node's own lock for at least as long; votes agree with terms; terms never fall |
| LeaderLease.AtMostOneLeader | quantumflow/failover/leader_election.py:456-470 | in every state of every run of any number of nodes, who would pass check_is_leader owns the live lock, with expiry no earlier than its own; so at most one node passes |
| LeaderLease.AnswerIsTrue | quantumflow/failover/leader_election.py:456-470 | in every state of every run check_is_leader answers true exactly a leader with an unexpired lease; who is answered true owns the lock, which has not expired, and is the only one |
| LeaderLease.TendedLeaseHolds | quantumflow/failover/leader_election.py:292-332 | a leader whose heartbeat turns come at least every half lifetime, and that is not stopped, outvoted or unhealthy, passes check_is_leader at the end, whatever the other nodes do |
| LeaderLease.TendedThroughout | quantumflow/failover/leader_election.py:292-332 | the same in every state on the way: check_is_leader answers that node true and every other node false |
| LeaderLease.TermsNeverDecrease | quantumflow/failover/leader_election.py:428-442 | over any run a node's term never falls and no vote is taken back |
| LeaderLease.OneVote | quantumflow/failover/leader_election.py:394-426 | a node backs one candidate per answered term, its own self-vote included; two candidates in one asked term only if an answer carried a later term |
| LeaderLease.OneWinnerPerTerm | quantumflow/failover/leader_election.py:154-197 | two candidates with majorities of the same node set in one term are the same (section 5.2 of the Raft paper) |
| LeaderLease.AnswerCanCarryLaterTerm | quantumflow/failover/leader_election.py:412-424 | a run in which one node grants term 5 to one candidate and answers another's term-5 request in term 6 |
| LeaderLease.RecordStep | quantumflow/failover/leader_election.py:292-332 | from a right leader record, a step makes it wrong if and only if it is a heartbeat turn that needs no renewal while another node's lock is live |
| LeaderLease.RecordHolds | quantumflow/failover/leader_election.py:235-364 | if no node takes leadership while a loss of its own still waits, be it for another loop or for itself, the stored record names the owner of the live lock in every state |
| LeaderLease.RecordCanGoWrong | quantumflow/failover/leader_election.py:334-354 | without that, a run of two nodes that ends with b holding the live lock and the record naming a |
| LeaderLease.RecordCanGoWrongBySelf | quantumflow/failover/leader_election.py:324-354 | the same when the loop gave up leadership itself |
| BinaryHeap.SiftDown | quantumflow/inference/priority_queue.py:74-91 | heapq's move towards the root restores heap order and keeps the contents |
| BinaryHeap.SiftUp | quantumflow/inference/priority_queue.py:93-131 | heapq's move of a hole to a leaf and back restores heap order below it and keeps the contents |
| BinaryHeap.Heapify | quantumflow/inference/priority_queue.py:93-131 | any list becomes a heap with the same contents |
| BinaryHeap.Pop | quantumflow/inference/priority_queue.py:93-131 | takes the first entry, which is least of all, and leaves a heap of the others |
| BinaryHeap.DeleteAt | quantumflow/inference/priority_queue.py:211-224 | removal from the middle leaves a heap of the others |
| BinaryHeap.RootIsLeastOfAll | quantumflow/inference/priority_queue.py:133-160 | the first entry of a heap is least under any total preorder |
| Strings.StringLeIsLexicographic | quantumflow/inference/priority_queue.py:47-60 | ids are compared like Python strings: a prefix first, otherwise by the first difference |
| PriorityQueue.EntriesOrdered | quantumflow/inference/priority_queue.py:15-60 | (priority, submit time, id) is a total preorder on entries |
| PriorityQueue.RequestQueue.Put | quantumflow/inference/priority_queue.py:74-91 | heap order stays; contents grow by the one entry, under its own or the overriding priority |
| PriorityQueue.RequestQueue.NextIndex | quantumflow/inference/priority_queue.py:133-184 | an index other than the root is chosen if and only if no high-priority work waits, the counter is below the threshold, the root has not timed out and some entry has; then it is the first that has |
| PriorityQueue.RequestQueue.Get | quantumflow/inference/priority_queue.py:93-131 | takes the entry with the lowest priority number, among those the one submitted first, and of those the one with the smallest id; or, with nothing but priorities from 5 queued and the counter below the threshold, one that has timed out, if any has; keeps the rest a heap, updates the counters, and continues the run of gets that the object has made |
| PriorityQueue.RequestQueue.RemoveByRequestId | quantumflow/inference/priority_queue.py:211-224 | true exactly when an entry has the id; then one such entry leaves, otherwise nothing changes |
| PriorityQueue.RootDecides | quantumflow/inference/priority_queue.py:144-171 | some least entry has timed out exactly when the root has |
| PriorityQueue.LeastComesFirst | quantumflow/inference/priority_queue.py:38-60 | what is least has the lowest priority number, among those the earliest submit time, and of those the smallest id |
| PriorityQueue.DrainTakesAll | quantumflow/inference/priority_queue.py:93-131 | draining yields every entry exactly once |
| PriorityQueue.DrainIsSorted | quantumflow/inference/priority_queue.py:93-184 | when nothing times out, draining yields ascending priority numbers and, within one priority, ascending submit times, whatever the counter says |
| PriorityQueue.LowTakenOnlyAlone | quantumflow/inference/priority_queue.py:133-184 | a get takes an entry of priority 5 or more if and only if no other work is queued |
| PriorityQueue.LowPriorityStarves | quantumflow/inference/priority_queue.py:15-45 | while high-priority work is always queued, an entry of priority 5 or more is never taken in any run, and stays until it is removed by id |
| PriorityQueue.OvertakingCondition | quantumflow/inference/priority_queue.py:133-184 | what a get takes is not the least entry if and only if that has priority 5 or more and has not timed out, the counter is below the threshold and some entry has timed out |
| NodeResource.BooksOverstate | quantumflow/scheduler/strategy/base.py:247-253 | the bytes booked on a GPU are never fewer than those really reserved on it, call by call, and equal exactly when every request on it holds no other GPU |
| NodeResource.EffectiveIsFree | quantumflow/scheduler/strategy/base.py:263-268 | the check sees exactly the memory that is left if and only if none is left or every request on the GPU holds no other GPU |
| NodeResource.RefusesWhatFits | quantumflow/scheduler/strategy/base.py:263-268 | a GPU with b bytes promised to nobody is shown as full |
| NodeResource.ReserveAllIs | quantumflow/scheduler/strategy/base.py:270-280 | reserving a list GPU by GPU for a new request books one reservation: the set of those GPUs, and the bytes of the whole list |
| NodeResource.ReserveKeepsValid | quantumflow/scheduler/strategy/base.py:263-280 | reserving any list keeps the books in order; after a check that passed, a list of distinct GPUs promises no GPU beyond its free memory |
| NodeResource.ReleaseKeepsValid | quantumflow/scheduler/strategy/base.py:282-289 | releasing leaves exactly the other requests' reservations, still within the free memory |
| NodeResource.TotalAddsUp | quantumflow/scheduler/strategy/base.py:270-289 | the running total of reserved bytes is the sum over the reservations after every reserve and release |
| NodeResource.CheckSuffices | quantumflow/scheduler/scheduler.py:310-326 | after a check that passed, reserving the list leaves no GPU of any node promised beyond its free memory, if and only if the list names no GPU twice |
| NodeResource.TwiceIsOversold | quantumflow/scheduler/scheduler.py:310-326 | a GPU with b bytes that is named twice passes the check for b and ends promised for 2b |
| Scheduler.PerGpu | quantumflow/scheduler/scheduler.py:291-308 | a positive number of bytes in every case: the estimate, else the configured figure, else 16 GiB; with no declared parameters a configured figure comes first |
| Scheduler.BatchIsLeast | quantumflow/scheduler/scheduler.py:205-215 | a batch is the k least requests of the queue; the others stay queued |
| Scheduler.BatchOrder | quantumflow/scheduler/scheduler.py:166-215 | whatever is popped, against what is popped later or stays queued: its priority number is no higher, at equal priority it was created no later, and at equal times it was queued no later |
| Scheduler.TicketsDecide | quantumflow/scheduler/scheduler.py:166-168 | in every run the counters in the queue are distinct and ascending, so requests themselves are never compared |
| Scheduler.StepKeepsAccounts | quantumflow/scheduler/scheduler.py:152-595 | every step keeps each request in one place, the four counters right, and the attempt counts within bounds |
| Scheduler.Conservation | quantumflow/scheduler/scheduler.py:152-595 | in every run with distinct ids total equals successful + failed + pending + running if and only if no close error was counted, and in general up to their number; between batches pending is the queue length |
| Scheduler.ExactlyOnce | quantumflow/scheduler/scheduler.py:384-595 | each submitted request is in exactly one of queue, batch, running and ended; it ends at most once, is attempted at most max(1, max_retries) times, and gives up only after exactly that many |
| Scheduler.CountedTwice | quantumflow/scheduler/scheduler.py:516-539 | a run of one request on one GPU that ends with one success and one failure counted |
| Scheduler.CloseKeeps | quantumflow/scheduler/scheduler.py:533-539 | the second count finds the request no longer running and changes no place |
| Scheduler.AllOrNothing | quantumflow/scheduler/scheduler.py:278-326 | a plan that fits is booked on every node of it; any refusal, also a final one, leaves every reservation as it was |
| Scheduler.PlanIsBooked | quantumflow/scheduler/scheduler.py:310-326 | a dispatched plan leaves on each of its nodes one more reservation, of the GPUs it names there and one share for each, and nothing new anywhere else |
| Scheduler.StepKeepsBooked | quantumflow/scheduler/scheduler.py:278-331 | every step keeps every available node holding reservations of running requests only and, with plans that name no GPU twice, within its memory |
| Scheduler.NeverOversold | quantumflow/scheduler/scheduler.py:278-331 | in every run all reservations belong to running requests, and none is left when nothing runs; if its plans name no GPU twice, no GPU is promised beyond its free memory, counting every reservation made |
| Scheduler.OversoldByRepeat | quantumflow/scheduler/scheduler.py:310-326 | a run of one request whose plan names a GPU twice, and which then holds twice the memory the GPU has |
| Scheduler.AttemptPays | quantumflow/scheduler/scheduler.py:217-248 | every attempt lowers the sum of remaining attempts, whatever the strategy answers |
| Scheduler.Drain | quantumflow/scheduler/scheduler.py:205-248 | batch after batch of at most ten, with any strategy, ends with nothing queued or pending |
| Scheduler.Scheduler.SubmitRequest | quantumflow/scheduler/scheduler.py:152-169 | the request is queued under the next counter; total and pending grow by one |
| Scheduler.Scheduler.TakeBatch | quantumflow/scheduler/scheduler.py:207-215 | pops ten requests, or all: those with the lowest priority numbers, the earliest created among equals, the earliest queued among those, in that order |
| Scheduler.Scheduler.CheckPlan | quantumflow/scheduler/scheduler.py:310-321 | the first pass is right about the whole plan and lists its (node, GPU) pairs in order |
| Scheduler.Scheduler.ReserveForRequest | quantumflow/scheduler/scheduler.py:278-326 | true exactly when the whole plan fits, then all of it is reserved; false leaves the nodes unchanged |
| Scheduler.Scheduler.ReleaseForRequest | quantumflow/scheduler/scheduler.py:328-331 | on every available node exactly the reservations of other requests stay |
| Scheduler.Scheduler.MarkFailure | quantumflow/scheduler/scheduler.py:570-587 | releasing twice is releasing once: one failure counted, the request no longer running, nothing reserved for it |
| Scheduler.Scheduler.HandleSchedulingFailure | quantumflow/scheduler/scheduler.py:441-469 | below the limit the request is queued again with one more retry and a new counter; otherwise one failure, one pending less, and its reservations released |
| Scheduler.Scheduler.Dispatch | quantumflow/scheduler/scheduler.py:384-413 | running with everything reserved, or a failed attempt |
| Scheduler.Scheduler.ProcessBatch | quantumflow/scheduler/scheduler.py:205-248 | the state after a whole batch is that of its attempts in order, and nothing popped is lost |
| Scheduler.BatchLosesNothing | quantumflow/scheduler/scheduler.py:205-248 | after a batch each request popped has been attempted exactly once, and all accounts hold |
| Scheduler.Scheduler.HandleWorkerResults | quantumflow/scheduler/scheduler.py:541-568 | one success exactly when some reply is a success, otherwise one failure; the request no longer runs and nothing stays reserved for it |
| Scheduler.Scheduler.DispatchError | quantumflow/scheduler/scheduler.py:533-539 | the error handler after counted results marks the request failed once more |
| Scheduler.Scheduler.RegisterNode | quantumflow/scheduler/scheduler.py:603-605 | the node is available, in place of any of the same id |
| Scheduler.Scheduler.UnregisterNode | quantumflow/scheduler/scheduler.py:620-625 | the node is gone with its reservations; running requests stay running |
| Quarantine.TrippedIffThreeClose | quantumflow/scheduler/scheduler.py:353-380 | a node's failures isolate it if and only if some three in a row lie within 60 s |
| Quarantine.InARowIsNotNeeded | quantumflow/scheduler/scheduler.py:553-562 | replies that alternate between failure and success isolate a node, even with exactly 60 s from the first failure to the third |
| Quarantine.InARowIsNotEnough | quantumflow/scheduler/scheduler.py:353-380 | three failures in a row with more than 30 s between them do not |
| Quarantine.FitsRecorded | quantumflow/scheduler/scheduler.py:361-367 | the pruned list equals the node's whole failure history within the window |
| Quarantine.NodeFailures.Record | quantumflow/scheduler/scheduler.py:353-380 | isolates exactly when the third last failure of the whole history is at most 60 s old, until now + the quarantine time |
| Quarantine.NodeFailures.Observe | quantumflow/scheduler/scheduler.py:553-562 | of a node's replies exactly the failures are recorded; a success changes nothing |
| Quarantine.NodeFailures.ReleaseExpired | quantumflow/scheduler/scheduler.py:335-346 | exactly the expired nodes leave, and their failures are forgotten |
| Quarantine.NodeFailures.Filter | quantumflow/scheduler/scheduler.py:348-351 | keeps the nodes without three close failures on record; with none quarantined the list is unchanged |
| Quarantine.NodeFailures.UsableConcat | quantumflow/scheduler/scheduler.py:348-351 | filtering works piece by piece, so the nodes kept stay in order |
| TokenBucket.Limiter.TryAcquire | quantumflow/grpc/interceptors/rate_limit.py:38-60 | grants n tokens exactly when n is within the capacity and within the tokens held and refilled since; takes them from the capped sum |
| TokenBucket.Limiter.AvailableTokens | quantumflow/grpc/interceptors/rate_limit.py:67-72 | reading refills and reports what is then there |
| TokenBucket.Limiter.ResetBucket | quantumflow/grpc/interceptors/rate_limit.py:74-78 | a full bucket from now on |
| TokenBucket.RefillTwice | quantumflow/grpc/interceptors/rate_limit.py:54-60 | refilling twice is refilling once at the later time |
| TokenBucket.WindowBound | quantumflow/grpc/interceptors/rate_limit.py:38-78 | in any run the tokens granted between any two instants are at most the capacity, the refill of that time and one capacity per reset in it |
| TokenBucket.RefillsChangeNothing | quantumflow/grpc/interceptors/rate_limit.py:62-72 | refills and reads of available_tokens inserted anywhere change no later answer |
| TokenBucket.SpacedNeverRefused | quantumflow/api/middlewares/rate_limit.py:14-43 | a client whose requests, of any number of tokens up to the capacity, each wait until that many have flowed in is never refused |
| TenantLimits.StepKeepsBound | quantumflow/api/middlewares/rate_limit.py:59-72 | never more than max_buckets buckets, one per tenant |
| TenantLimits.AlwaysBounded | quantumflow/api/middlewares/rate_limit.py:59-72 | the same in every state of every run from the empty limiter |
| TenantLimits.Simulated | quantumflow/api/middlewares/rate_limit.py:59-94 | a tenant's share of any run of the shared limiter is a run of a single bucket in which each re-creation is a reset |
| TenantLimits.TenantBound | quantumflow/api/middlewares/rate_limit.py:74-94 | in any run a tenant with steady limits passes between two instants at most the refill, a burst if it has a bucket at the first of them, and a burst per bucket made for it in between |
| TenantLimits.TenantBudget | quantumflow/api/middlewares/rate_limit.py:59-94 | with limits that change from call to call: a tenant passes between two instants at most the capacity of the bucket it has at the first, the flow into each of its buckets at the rate that was made with, and the burst of each bucket made in between |
| TenantLimits.QuotaWaits | quantumflow/api/middlewares/rate_limit.py:62-72 | while a tenant has a bucket, other limits in the call change neither answer nor state |
| TenantLimits.OneBucketIsPlain | quantumflow/api/middlewares/rate_limit.py:74-94 | with at most one bucket ever made for it, burst + rate * time holds in every window |
| TenantLimits.TwoBucketsAreNot | quantumflow/api/middlewares/rate_limit.py:63-71 | a limiter for one bucket, three calls x, y, x at one instant with burst 1: x passes twice |
| TenantLimits.PlainLimitHoldsWhen | quantumflow/api/middlewares/rate_limit.py:59-94 | all runs that make at most m buckets for a tenant keep its plain limit if and only if m is at most one |
| TenantLimits.TenantLimiter.GetBucket | quantumflow/api/middlewares/rate_limit.py:59-72 | an existing bucket is left alone; a new one is full, goes to the end of the order, and takes the place of the oldest when there is no room; raises, with nothing changed, when there is none to evict |
| TenantLimits.TenantLimiter.CheckLimit | quantumflow/api/middlewares/rate_limit.py:74-94 | the state, and the answer: with a bucket, whether it holds a token after the refill since; without one, whether the burst (120 unless given) is positive; none if making room raised |
| TenantLimits.TenantLimiter.GetRemaining | quantumflow/api/middlewares/rate_limit.py:96-101 | the refilled bucket's tokens, or the default burst for a tenant without one |
| TenantLimits.TenantLimiter.RemoveBucket | quantumflow/api/middlewares/rate_limit.py:103-116 | true exactly when the tenant had a bucket, which is then gone; the others keep their order |
| SlidingWindow.Limiter.TryAcquire | quantumflow/grpc/interceptors/rate_limit.py:205-219 | admits exactly when fewer than max admissions of the whole history lie in the last window; refuses only when exactly max do; the pruned list is that history filtered |
| SlidingWindow.Limiter.CurrentCount | quantumflow/grpc/interceptors/rate_limit.py:221-226 | counts the whole history's admissions in the last window |
| SlidingWindow.CountIs | quantumflow/grpc/interceptors/rate_limit.py:221-226 | the count of an interval is the number of history positions whose time lies in it |
| SlidingWindow.Limiter.ResetLimiter | quantumflow/grpc/interceptors/rate_limit.py:228-231 | the history starts anew |
| SlidingWindow.PruneAgain | quantumflow/grpc/interceptors/rate_limit.py:208-213 | pruning what was pruned earlier loses nothing |
| SlidingWindow.EveryWindowBounded | quantumflow/grpc/interceptors/rate_limit.py:194-219 | since the last reset no half-open interval of window length holds more than max admissions |
| SlidingWindow.EveryWindowOfLog | quantumflow/grpc/interceptors/rate_limit.py:194-231 | over the limiter's whole life no half-open interval of window length holds more than max admissions and max more for every reset in it |
| SlidingWindow.ResetLetsMoreThrough | quantumflow/grpc/interceptors/rate_limit.py:228-231 | with max 1, two admissions at one instant with a reset between them |
| BlockPool.EvictionTakesNothing | quantumflow/inference/vram_manager.py:150-172 | the eviction pass changes nothing if and only if every block in use has a non-empty owner |
| BlockPool.EvictedMeans | quantumflow/inference/vram_manager.py:150-172 | the pass frees only blocks in use without an owner, from the front, at most as many as needed, and leaves none of them in use unless it freed that many |
| BlockPool.Blocks.Allocate | quantumflow/inference/vram_manager.py:81-136 | where blocks in use have owners: granted exactly if the free blocks carry n tokens; then distinct free blocks, as many as n needs and not one more, go to the request, and no other block changes; every refusal is counted |
| BlockPool.AllocationMeans | quantumflow/inference/vram_manager.py:81-136 | the same for any such pool: the condition, the blocks handed out and the counters; a refusal changes only the count of refusals |
| BlockPool.GrantedWhen | quantumflow/inference/vram_manager.py:81-172 | in any pool an allocation succeeds exactly if the free blocks, and those in use that name no request, carry n tokens |
| BlockPool.Blocks.Release | quantumflow/inference/vram_manager.py:138-148 | frees exactly the named blocks that the request owns |
| BlockPool.ReleaseMeans | quantumflow/inference/vram_manager.py:138-148 | a named block that the request holds becomes free and ownerless; every other block stays as it was |
| BlockPool.Blocks.EvictIdle | quantumflow/inference/vram_manager.py:150-172 | frees the first blocks in use without an owner among the active requests, as many as needed |
| BlockPool.Blocks.Allocatable | quantumflow/inference/vram_manager.py:186-191 | reports the free blocks divided by the blocks n tokens need, and none if they need none |
| BlockPool.GrantCarriesAll | quantumflow/inference/vram_manager.py:81-136 | a grant for n > 0 tokens has ceil(n/block_size) blocks, none empty or overfull, carrying n in all |
| BlockPool.ReleaseUndoesGrant | quantumflow/inference/vram_manager.py:138-148 | releasing a grant restores free set, use count and everybody's holdings |
| BlockPool.StepKeepsInv | quantumflow/inference/vram_manager.py:56-172 | flags, owners, free set and counter stay consistent; nobody else's block changes hands; granted blocks were nobody's |
| BlockPool.GrantLasts | quantumflow/inference/vram_manager.py:81-172 | over any run a granted block stays with its request until that request releases it |
| BlockPool.GrantsDisjoint | quantumflow/inference/vram_manager.py:81-172 | two grants of a run share no block unless it was released in between |
| BlockPool.AllocatableIsExact | quantumflow/inference/vram_manager.py:186-191 | for n > 0 exactly as many further n-token allocations succeed as it says |
| BlockPool.AllocatableUnderstatesNothing | quantumflow/inference/vram_manager.py:186-191 | for n <= 0 it says none, though every allocation succeeds, empty |
| EngineManager.MaxBlocks | quantumflow/inference/vram_manager.py:518-532 | 5000 blocks per GB rounded down, never under 16; from 0.4096 GB on every model gets the same 2048 |
| EngineManager.SystemStepKeepsInv | quantumflow/inference/manager.py:234-333 | every load, reload, unload, begin and end keeps every block in use owned by a running generation of its pool's model |
| EngineManager.OccupiedBlocksBelong | quantumflow/inference/manager.py:267-333 | the same in every state of every interleaving |
| EngineManager.QuiescentMeansFree | quantumflow/inference/manager.py:267-306 | when nothing runs, every block of every pool is free and the use count is zero |
| EngineManager.GenerationHolds | quantumflow/inference/manager.py:267-306 | in every run a generation that begins on a loaded model gets blocks exactly if the free ones carry its tokens at 16 to a block; then it gets ceil(tokens / 16), and until it ends or its model is loaded anew or unloaded it holds exactly those blocks |
| EngineManager.StaleReleaseHarmless | quantumflow/inference/vram_manager.py:315-340 | a generation that outlives a reload or unload of its model releases nothing of any later pool |
| EngineManager.Manager.BeginGenerate | quantumflow/inference/manager.py:267-290 | the error for a model that is not loaded; otherwise the generation runs with ceil(tokens / 16) formerly free blocks that it now owns, or with none exactly if fewer are free |
| EngineManager.Manager.EndGenerate | quantumflow/inference/manager.py:290-306 | the generation runs no longer and its blocks are free, whether or not its model is still loaded |
| EngineManager.Manager.RecordLoaded | quantumflow/inference/vram_manager.py:315-335 | loading replaces the model's pool with a fresh one of the estimated size, all free |
| EngineManager.Manager.RecordUnloaded | quantumflow/inference/vram_manager.py:337-340 | unloading drops the model's pool and no other |
| EvictionPlan.ScoresOrdered | quantumflow/inference/vram_manager.py:534-557 | candidates are the idle models in descending score order |
| EvictionPlan.OlderAndLargerFirst | quantumflow/inference/vram_manager.py:543-557 | of two idle models the one unused for longer that is no smaller ranks first |
| EvictionPlan.AgeOutweighsSize | quantumflow/inference/vram_manager.py:543-557 | the model unused for longest ranks strictly before any used just now, whatever their sizes |
| EvictionPlan.ScoreTradesOff | quantumflow/inference/vram_manager.py:543-557 | one model ranks no later than another if and only if 7 times its lead in age over the largest age makes up for 3 times its lack of size over the largest size |
| EvictionPlan.CanLoad | quantumflow/inference/vram_manager.py:263-313 | the three answers; a plan names the first candidates, in order, that make up the shortage, and without the last of them it would fall short |
| EvictionPlan.PlanIsOrdered | quantumflow/inference/vram_manager.py:286-313 | a plan lists distinct idle loaded models, and no idle model left alone scores higher |
| EvictionPlan.RefusalIsRight | quantumflow/inference/vram_manager.py:286-313 | after a refusal no choice of idle models would make up the shortage |
| NodeSelection.CountAvailable | quantumflow/cluster/manager.py:367-371 | the number of GPUs with more than a tenth of their memory free |
| NodeSelection.EligibleAre | quantumflow/cluster/manager.py:349-364 | eligible are exactly the healthy nodes that carry all the labels and have a GPU with more than a tenth of its memory free |
| NodeSelection.RankedEligible | quantumflow/cluster/manager.py:349-374 | ranking adds no node that is not eligible |
| NodeSelection.LoadIsMean | quantumflow/cluster/manager.py:107-119 | on GPUs of one size the load is the mean over them of 0.6 times the used share of memory and 0.4 times the utilization |
| NodeSelection.FindBestNodes | quantumflow/cluster/manager.py:345-391 | the shortest prefix of the ranked eligible nodes that has the GPUs, or all of them |
| NodeSelection.SelectionIsOptimal | quantumflow/cluster/manager.py:345-391 | if the eligible nodes have the GPUs with more than a tenth of their memory free at all, so has the selection, and no choice of eligible nodes with as many has fewer nodes; otherwise every eligible node is returned |
| NodeSelection.WeightIsCount | quantumflow/cluster/manager.py:383-389 | what the greedy choice adds up is the number of such GPUs of the nodes chosen |
| NodeSelection.SelectedAreBetter | quantumflow/cluster/manager.py:367-373 | no eligible node left out has more available GPUs than a selected one, nor as many at a lower load |
| BatchFlush.Accumulator.Submit | quantumflow/inference/batch_accumulator.py:98-114 | the request is buffered with a pending future |
| BatchFlush.Accumulator.TakeBatch | quantumflow/inference/batch_accumulator.py:155-170 | the batch is the whole buffer, by ascending priority and submit time if enabled; the buffer is empty |
| Sorting.SortIsStable | quantumflow/inference/batch_accumulator.py:166-168 | entries with equal keys keep their order |
| BatchFlush.Accumulator.Deliver | quantumflow/inference/batch_accumulator.py:171-225 | every pending future of the batch is set by its own position's result, by an index error past the results, or by the inference error; all others are untouched |
| BatchFlush.OwnResult | quantumflow/inference/batch_accumulator.py:155-215 | with inference prompt by prompt, each waiting request gets the result for its own prompt, and a future that was set keeps what it had |
| BatchFlush.OrderDoesNotMatter | quantumflow/inference/batch_accumulator.py:155-215 | two batches in which the same ids ask the same prompts end in the same futures, whatever their priorities, times and order |
| BatchFlush.SetExactlyOnce | quantumflow/inference/batch_accumulator.py:171-225 | every future of the batch ends set, and one that was set keeps what it had |
| Failover.ReplicaManager.SetPrimaryNode | quantumflow/failover/replica_manager.py:641-693 | the placement after promotion; the node is primary, every listed secondary a secondary, and other roles and all health data stay |
| Failover.ReplicaManager.ElectNewPrimary | quantumflow/failover/replica_manager.py:695-734 | elects if and only if some secondary is known and healthy: the first of those with the fewest consecutive failures; promotes it; otherwise nothing changes |
| Failover.FailoverController.FailoverModel | quantumflow/failover/controller.py:327-368 | elects, and promotes the elected node once more |
| Failover.FailoverController.InitiateFailover | quantumflow/failover/controller.py:202-291 | when it runs at all, and the event and placements it leaves |
| Failover.PromotionKeepsNodes | quantumflow/failover/replica_manager.py:641-693 | promoting a secondary keeps the node set without duplicates, keeps the old primary as a secondary, and is idempotent |
| Failover.PromotedIs | quantumflow/failover/replica_manager.py:655-690 | the promoted secondary leaves the list, the others keep their order, and the old primary comes last |
| Failover.RolesMean | quantumflow/failover/replica_manager.py:670-690 | exactly the listed nodes become secondaries |
| Failover.FailoverResult | quantumflow/failover/controller.py:202-291 | each model of a node that is not healthy gets a new primary, recorded as target, if and only if one of its secondaries is known and healthy; it is the first of those with the fewest consecutive failures; otherwise the placement is unchanged |
| Failover.PrimaryMovesRegardless | quantumflow/failover/controller.py:327-368 | the primary moves if and only if some secondary is known and healthy, even away from a healthy primary |
| TaskQueue.ScoreOrder | quantumflow/storage/redis_queue.py:170-180 | scores order requests by descending priority, and within a priority the newest first |
| TaskQueue.FetchedInOrder | quantumflow/storage/redis_queue.py:170-240 | in every run a fetch takes a request of the highest priority queued and, within that priority, the one created last |
| TaskQueue.RedisQueue.Enqueue | quantumflow/storage/redis_queue.py:150-190 | stores the request and queues its id under its score |
| TaskQueue.RedisQueue.Dequeue | quantumflow/storage/redis_queue.py:200-266 | takes the member with the lowest score, the smallest id among equals, and returns its record |
| TaskQueue.RedisQueue.Requeue | quantumflow/storage/redis_queue.py:288-321 | counts the retry if asked, and refuses past the limit without a change |
| TaskQueue.TaskFetcher.FetchOne | quantumflow/worker/task_fetcher.py:143-192 | fetches exactly when a slot is free and the queue is not empty, the member with the lowest score first |
| TaskQueue.TaskFetcher.FinishTask | quantumflow/worker/task_fetcher.py:194-231 | the end of an execution is one step of the shared system: the result stored, or one more retry queued below the limit, or the final failure |
| TaskQueue.TaskFetcher.RetryTask | quantumflow/worker/task_fetcher.py:287-317 | requeues below the limit, otherwise stores the final result |
| TaskQueue.StepKeepsInv | quantumflow/worker/task_fetcher.py:157-317 | every step of every worker keeps each id in one place with the executions its retry count says |
| TaskQueue.ExactlyOnePlace | quantumflow/worker/task_fetcher.py:157-317 | in every run with any number of workers each id is queued, executing or finished, exactly one of them, executed at most max_retries + 1 times, and given up only after exactly that many |
| TaskQueue.MeasureStep | quantumflow/worker/task_fetcher.py:194-317 | every end of an execution lowers the remaining executions; a fetch leaves them |
| TaskQueue.Terminates | quantumflow/worker/task_fetcher.py:143-317 | once nothing more is submitted no more than that many executions end, and when they have, everything has its result |
| TaskQueue.CanGoOn | quantumflow/worker/task_fetcher.py:143-231 | while some submitted request has no result, an execution can end or any worker can fetch |
| TaskQueue.Work | quantumflow/worker/task_fetcher.py:143-317 | however workers and handlers go on, if they go on, they reach a state in which everything submitted has its result |

## Left out

- Leader election: one clock for all nodes and Redis; a Redis call and the assignments after it are one step; the heartbeat's record write and health look-up are one step; callbacks, the vote transport stub (`_request_vote`), liveness of elections, Redis outages, and the non-atomic fallbacks of release and extend.
- LeaderElection.LeaderElector.VoteForCandidate: for calls that nothing interrupts; the two halves around the wait are `MoveToTerm` and `CastVote`, and `LeaderLease` interleaves them.
- LeaderElection.LeaderElector.HaltHeartbeat: the running flag is not kept, so loops that were lost track of may take more turns here than in the code; the election loop has ended before.
- StateStore.NodeStateStore.AcquireLock: the lock named "leader" only; lock metadata other than the owner is not kept.
- BinaryHeap.SiftDown: swaps neighbours where heapq carries the moving entry in a variable; the list after each call is the same. Lists are sequence values, so aliasing of the list is not modelled.
- PriorityQueue.RequestQueue.Get: starts when the queue is not empty; waiting on the condition variable, `peek`, sizes and statistics resets are not modelled.
- NodeResource.ReserveKeepsValid: a reservation also keeps the list of calls that made it, which the source forgets; nodes are values in the scheduler's map, so sharing a node object between schedulers is not modelled; `available_gpus` and placement scores are not part of this model.
- Scheduler.Drain: the clock, the sleep between batches and the skip of a turn while no node is known are not part of it; it says the loop ends, not how soon.
- Scheduler: strategies are arbitrary answers; workers' endpoints, HTTP calls and callbacks are not modelled; a request's estimates are not negative and ids are distinct; `stop`, `update_node` and nodes that arrive with reservations are left out; `asyncio.PriorityQueue` is a list from which the least entry is taken.
- The distributed scheduler (`quantumflow/scheduler/distributed.py`), whose retries follow other rules.
- Quarantine.NodeFailures.Record: the `quarantined_nodes` statistic is not kept.
- TokenBucket: `update_qps`, `update_burst` and float rounding; per-method buckets of the interceptor.
- TenantLimits.TenantBound: for tenants that always ask with the same limits; `TenantBudget` is the bound without that.
- TenantLimits.TenantLimiter.CheckLimit: look-up and acquisition are one step, as on one event loop; between threads the lock is released in between, and a bucket evicted there may still be charged.
- SlidingWindow.Limiter.TryAcquire: the per-method limiters and the interceptor around it.
- BlockPool.AllocatableIsExact: for pools whose blocks in use all have owners, as in every run with non-empty request ids.
- EngineManager: engine loading and inference, `in_use` marks, GPU monitoring and idle eviction; request ids are drawn afresh. Assumed, for the code takes no lock: recording a loaded or unloaded model is one step, the engine's own work before it does not touch the pools.
- EvictionPlan.CanLoad: VRAM probing and size estimation are inputs.
- NodeSelection.FindBestNodes: nodes and labels are values; heartbeats and status changes are not modelled.
- BatchFlush.Accumulator.Deliver: the worker loop, timeouts, the batch size limits and running averages; `shutdown` leaves buffered futures unset and is not modelled.
- Failover: copying model files, event subscribers, decisions' reasons, `remove_replica`, `_update_replica_index` and the replica cache. Assumed, for `set_primary_node` and `elect_new_primary` take no lock: reading an index, changing and saving it is one step, and no `sync_replica` that read the index earlier saves it over a promotion.
- TaskQueue: expiry of stored records, shutdown, metrics and the in-memory fallback; worker slots are counted, races on the `_active_tasks` dictionary are not modelled.
- `Sorting.Sort` stands for Python's stable `sort`, and Redis' sorted set for its documented order.
