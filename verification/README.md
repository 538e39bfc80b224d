# Verified model of rota-lb

A Dafny model of `rota-lb`, a client-side load balancer: a pool of backends, nine
strategies that pick one per dial, guards that count open connections, retries, health
counters, dynamic reconfiguration and reconciliation with service discovery.

`dafny verify dfyconfig.toml` checks the whole project.

## What is proved

- **Weighted round robin** (`WeightedRoundRobin.dfy`). From the greedy rule alone follow exact
  shares in every window of one cycle, periodicity and two-sided lag bounds at every moment.
  The u64 machine is shown to follow that exact schedule after any history of RTT vectors
  for which the products it forms fit u64; one case past that limit is shown to go wrong.
  Inside the balancer the shares hold over all interleavings of dials (`Cycles.dfy`).
- **The concurrent balancer** (`Machine.dfy`, `Runs.dfy`). Dials, guards and reconfigurations
  are steps, one per critical section of the code. A run conserves connection counts and
  dial counters and keeps every pending decrement right, in every state, exactly when every
  step meets a stated guard.
- **Guard identity** (`Identity.dfy`). In every run with fewer than 2^64 removals and
  replacements, whatever its counters and drops do, a guard that passes its check names the
  backend it was dialled on; without that bound, an exact condition.
- **One backend's books** (`Books.dfy`, `Leaks.dfy`). Conservation for one backend alone, under
  an exact condition that is about that backend only. Over every such run its reported count
  drifts by exactly the connections the run loses track of, so it is right exactly when there
  are none.
- **What breaks the books** (`Races.dfy`). Runs that break the stated guards: a removal or a
  replacement between a guard's check and its decrement, and a generation that comes round.
- **Drains, pins and spreading** (`Draining.dfy`, `Pinning.dfy`, `Spreading.dfy`). Exactly which
  runs leave a backend without new dials under health-weighted selection, and when a drain
  lasts; exactly which changes of the pool move a sticky pick; and evenness under least
  connections over all interleavings.
- **The balancer object** (`Balancer.dfy`, `Pools.dfy`). Three parallel vectors are updated in place and
  shown to act as one sequence of records. The machine uses the same record operations.
- **Discovery** (`Reconcile.dfy`). The in-place diff equals filter-and-append, is idempotent,
  and resumes after a factory failure under an exact condition.
- **Failover, retries, health, selection, addresses** (`Failover.dfy`, `Retry.dfy`,
  `Health.dfy`, `FailureCounts.dfy`, `Selection.dfy`, `Strategies.dfy`, `Rotation.dfy`,
  `Address.dfy`).

`Metrics.dfy`, `Errors.dfy` and `Arithmetic.dfy` hold what the others share.

## How the code is modelled

- Integers are unbounded; widths are explicit. Unchecked additions wrap, as in a build
  without overflow checks, and saturating ones saturate. `usize` is 64 bits.
- A dial is split where the code takes a lock: counting in, recording the outcome, and
  reporting an error to the strategy are separate steps, and a dial can be cancelled between
  them. A guard's generation check and its decrement are separate steps too.
- Reconfiguration needs exclusive access, so it never overlaps a dial. Guards and pending
  drops may outlive it.
- The books as a whole balance in tame runs (`Machine.Tame`), and only there (`Runs.RunGoodIff`). A
  dial is tame if the picked u32 count is below its maximum; an addition, if no decrement is
  pending on the index it fills; a removal or replacement, if it leaves every pending decrement
  right and no live guard carries the next generation. All other steps are tame. Identity, the
  books of one backend, drains, pins and cycles do not need a tame run.
- A connection is counted by its guard. `into_inner` (`src/services/balancer.rs:614-616`) drops
  the guard and hands out the connection, which from then on is not counted; "live guards" below
  leaves such connections out.
- What backends answer, what factories return, random draws, address hashes and whether a
  lock is free are parameters. A timeout is an error outcome. Delays are real numbers of seconds.
- The strategy inside the balancer is a value of one sum type; the stateful strategies are also
  classes proved against it.
- The retry loop is specified for outcome streams at which it stops; with a bounded policy that
  is every stream.

## Where code and documentation differ

The model follows the code.

- `src/traits/strategy.rs:70-72` says the picked count is incremented before `pick`; the code
  picks first (`src/services/balancer.rs:172-173`).
- `src/traits/strategy.rs:57-58` calls `total_dials` successful dials; the code counts every dial
  begun.
- `src/services/balancer.rs:637-639` and `src/traits/strategy.rs:47-52` say inflated counts
  converge; nothing in the code lowers them again (`Leaks.InflationOverRun`,
  `Leaks.CountRightIff`).
- `src/strategies/failover.rs:4-6` promises rotation on every primary error; it stops after a
  shrink (`Failover.RotatesIff`).
- `src/strategies/sticky.rs:21` promises one backend for life; an index is pinned
  (`Pinning.PinHoldsIff`).
- `src/utils/health.rs:24-25` promises a recovery threshold; a failing check can bypass it
  (`Health.RecoversIff`).
- `src/services/balancer.rs:401` promises that draining stops new connections; only strategies
  that read recent errors comply, and only while another backend scores better
  (`Draining.NoNewDialIff`).

## Model

| member | source | states |
|---|---|---|
| WeightedRoundRobin.WeightIsInverse | src/strategies/weighted_round_robin.rs:34-46 | weight times milliseconds brackets 1000 for an RTT of 1 ms to 1 s; the weight is 1 above a second and for an unknown RTT, 1000 below a millisecond and for a millisecond count that does not fit u64 |
| WeightedRoundRobin.WeightAntitoneIff | src/strategies/weighted_round_robin.rs:34-46 | a faster backend weighs at least as much, exactly when the slower RTT fits u64 milliseconds, the faster one is at most 1 ms, or the faster one does not fit either |
| WeightedRoundRobin.ScanIsLeftmostMin | src/strategies/weighted_round_robin.rs:59-68 | the one-pass cross-multiplied scan finds the leftmost backend with the least ratio of picks to weight |
| WeightedRoundRobin.CountsFair | src/strategies/weighted_round_robin.rs:59-69 | after any number of picks, no backend's ratio before its last pick exceeded any other backend's ratio |
| WeightedRoundRobin.LagBounds | src/strategies/weighted_round_robin.rs:59-69 | after N picks over n backends with total weight W: (picks[i]-1)*W <= (N-1)*w[i] and (N-n+1)*w[i] <= picks[i]*W |
| WeightedRoundRobin.HeavierNotBehindIff | src/strategies/weighted_round_robin.rs:59-69 | a backend is never more than one pick behind another, at any moment, exactly when it weighs at least as much |
| WeightedRoundRobin.FasterNotBehindIff | src/strategies/weighted_round_robin.rs:6-10 | a backend with a known RTT no larger than another's is never more than one pick behind it, exactly when the other RTT is unknown or fits u64 milliseconds, or its own is at most 1 ms or does not fit either |
| WeightedRoundRobin.HugeRttOvertakes | src/strategies/weighted_round_robin.rs:38 | the proviso is needed: an RTT above u64 milliseconds is given weight 1000 and takes 1000 of 1001 picks from a one-second backend |
| WeightedRoundRobin.ExactCycle | src/strategies/weighted_round_robin.rs:34-69 | the first W picks after a rebuild serve every backend exactly its weight |
| WeightedRoundRobin.CountsPeriodic | src/strategies/weighted_round_robin.rs:59-69 | W picks later every counter has grown by exactly its weight |
| WeightedRoundRobin.TurnPeriodic | src/strategies/weighted_round_robin.rs:59-69 | pick number k+W chooses the same backend as pick number k |
| WeightedRoundRobin.AnyWindowIsExact | src/strategies/weighted_round_robin.rs:59-69 | any W consecutive picks serve each backend exactly its weight, wherever the window starts |
| WeightedRoundRobin.WindowInverseToRtt | src/strategies/weighted_round_robin.rs:6-10 | in any W consecutive picks a backend's picks times its milliseconds bracket 1000, with the same end cases |
| WeightedRoundRobin.SmallFits | src/strategies/weighted_round_robin.rs:62-64 | counters up to (2^64-1)/1000 make no product with another backend's weight overflow, whatever the weights |
| WeightedRoundRobin.ScanRefinesExact | src/strategies/weighted_round_robin.rs:62-67 | while no product of a counter and another backend's weight overflows, the u64 scan equals the exact one |
| WeightedRoundRobin.ReachableIsSchedule | src/strategies/weighted_round_robin.rs:49-70 | after any history of RTT vectors whose schedule's cross products and counters fit u64 at each pick, the u64 state is the exact schedule counted from the last change, and the pick returned is that schedule's turn |
| WeightedRoundRobin.ShortStreaksFit | src/strategies/weighted_round_robin.rs:49-70 | that premise holds when no RTT vector stays unchanged for more than (2^64-1)/1000 picks |
| WeightedRoundRobin.PastLimitGoesWrong | src/strategies/weighted_round_robin.rs:62-69 | a case past that premise: 2*(2^64-1)/1000+1 picks over two 1 ms backends meet it, the u64 machine then holds one counter past the limit, and its next pick is the wrong backend |
| Cycles.DialsFollowSchedule | src/services/balancer.rs:165-182 | inside the balancer, however dials, guards, errors, cancellations and drains interleave, the picks are the schedule's turns and each backend's picks are its share of it |
| Cycles.AnyCycleIsExact | src/strategies/weighted_round_robin.rs:49-70 | over any such interleaving, from any point of the schedule, as many dials as the weights add up to begin on each backend exactly its weight |
| Cycles.CycleInverseToRtt | src/strategies/weighted_round_robin.rs:6-10 | the dials begun on a backend over such a cycle, times its milliseconds, bracket 1000, with the same end cases |
| WeightedRoundRobin.WeightedRoundRobin.Rebuild | src/strategies/weighted_round_robin.rs:34-45 | weights become those of the remembered RTTs, counters become zero |
| WeightedRoundRobin.WeightedRoundRobin.Pick | src/strategies/weighted_round_robin.rs:49-70 | new fields and returned index are those of the specification step, including the reset and the empty pool |
| Selection.ArgMin | src/strategies/health_weighted.rs:24-38 | returns the leftmost index of a least key |
| Selection.ScoreParts | src/strategies/health_weighted.rs:26-32 | an idle backend scores its RTT in microseconds, or 1000000 if unknown or too large; each recent error adds 500000 and each open connection 10000, exactly while the sum fits u64 |
| Selection.ScoreExactIff | src/strategies/health_weighted.rs:27-32 | the u64 score equals that sum for every error and connection count exactly when the RTT is at most 2^64-1-510000*(2^32-1) microseconds |
| Selection.HealthWeightedPicksIff | src/strategies/health_weighted.rs:23-38 | while no score overflows, a backend is picked exactly when its RTT, errors and connections make it worse than no other and better than all to its left |
| Selection.HealthWeightedPick | src/strategies/health_weighted.rs:23-39 | the loop returns the leftmost least score, the index the balancer's machine uses, and 0 for an empty pool |
| Selection.LoadKeyIsLexicographic | src/strategies/least_connections.rs:30-38 | the key compares connection counts first and RTTs, missing ones as the maximum, second |
| Selection.LeastConnectionsPick | src/strategies/least_connections.rs:26-42 | the loop returns the leftmost lexicographic minimum, the index the balancer's machine uses, and 0 for an empty pool |
| Selection.RttOrder | src/strategies/least_connections.rs:34-36 | known RTTs compare by value and a missing one comes before none |
| Selection.FindLowestRtt | src/strategies/sticky.rs:7-19 | the loop returns the leftmost least RTT, missing ones as the maximum, and 0 if there is none (the same function as in src/strategies/lowest_rtt.rs) |
| Selection.LeastConnectionsBalances | src/strategies/least_connections.rs:26-42 | from equal counts, n dials leave every count between base + floor(n/size) and base + ceil(n/size), without overflow |
| Strategies.PickStep | src/traits/strategy.rs:69-73 | every strategy in any state, after any history of pool sizes, picks inside a non-empty pool and stays well formed |
| Strategies.RoundRobinVisitsAll | src/strategies/round_robin.rs:25-31 | as many consecutive picks as there are backends visit each backend exactly once, whatever happens to the metrics in between |
| Strategies.RoundRobinResumes | src/strategies/round_robin.rs:25-31 | over a pool that changes between picks, the next index is one after the last, or 0 past the end |
| Strategies.LowestRttPicked | src/strategies/lowest_rtt.rs:7-19 | lowest RTT, and sticky before it is pinned, pick the leftmost of the lowest known RTTs, and index 0 if none is known |
| Strategies.DrawDecides | src/strategies/hash_by_addr.rs:26-31 | a hashed address goes to its hash modulo the pool size whatever the metrics; any index can be drawn at random |
| Strategies.StickyKeepsIndex | src/strategies/sticky.rs:41-48 | a pinned index survives any history of pools and is only clamped to the pool |
| Pinning.PickIsPinned | src/strategies/sticky.rs:41-48 | a pick pins the backend it goes to, and a pinned one is at the clamped index |
| Pinning.AdditionKeepsPinIff | src/strategies/sticky.rs:21-25 | an addition leaves the pick on its backend exactly when the pinned index is inside the pool |
| Pinning.RemovalKeepsPinIff | src/strategies/sticky.rs:21-25 | a removal does exactly when it is of another member, and either of a later one or the pick is on the last |
| Pinning.PinHoldsIff | src/strategies/sticky.rs:21-25 | the documented pin for life fails: over every run that keeps the strategy object all picks stay on the pinned backend exactly when each addition and removal meets its condition and nothing is replaced |
| Pinning.AdditionTakesPick | src/strategies/sticky.rs:21-25 | a removal of an earlier member followed by an addition moves the pick off a last member that was touched by neither |
| IndexStrategies.RoundRobin.Pick | src/strategies/round_robin.rs:25-31 | field and index follow the specification step |
| IndexStrategies.Sticky.Pick | src/strategies/sticky.rs:41-48 | field and index follow the specification step, also for an empty pool |
| Failover.FindsWorking | src/strategies/failover.rs:36-51 | in a constant pool with a working backend, the first d dials fail on d different backends, d at most the number of failing ones, and all later dials succeed on one backend |
| Rotation.FindsWorkingMember | src/services/balancer.rs:165-232 | the same through the balancer's own dials, error counts and reports: in a constant pool with a working member the first d dials fail on different members, d at most the number of failing ones, and all later dials succeed on one member |
| Rotation.TriedInOrder | src/strategies/failover.rs:46-51 | while dials fail, the members are tried in order round the pool from the primary |
| Failover.RotatesIff | src/strategies/failover.rs:4-6 | an error on the picked backend moves the next pick exactly when the primary is inside the pool and the pool has more than one backend |
| Failover.StuckAfterShrink | src/strategies/failover.rs:36-51 | once the pool has shrunk to at most the primary's index, no number of failures moves the pick |
| Failover.StaysInPool | src/strategies/failover.rs:36-51 | in a pool that never shrinks the primary stays inside it, whatever errors are reported |
| Failover.Failover.Pick | src/strategies/failover.rs:36-42 | fields and index follow the specification step |
| Failover.Failover.Report | src/strategies/failover.rs:46-51 | only an error on the primary rotates, and wraps round the remembered length |
| Retry.NestReduces | src/utils/retry.rs:191-198 | any nest of policies retries exactly when all its predicates accept the error and its one bound is not reached |
| Retry.DialWithRetry | src/services/balancer.rs:234-275 | the loop stops at the first attempt that succeeds or is refused, returns that attempt's outcome, and sleeps the sum of the delays |
| Retry.BoundedLoopEnds | src/utils/retry.rs:70-77 | under a bounded policy an attempt is the last exactly when it succeeds, its error is rejected, or the bound is reached |
| Retry.CallsAreMin | src/services/balancer.rs:245-274 | backend calls are the minimum of max(1, m) and the first attempt that succeeds or fails with a rejected error; the dial succeeds exactly if that attempt is a success within the bound |
| Retry.NestDelay | src/utils/retry.rs:70-198 | under any nest of filters the delay is the fixed one, or the backoff delay, of which jitter keeps half plus the drawn fraction of the other half |
| Retry.FixedSleepExact | src/services/balancer.rs:245-273 | with a fixed delay the loop sleeps exactly that delay once per repeated call |
| Retry.DelayRecurrence | src/utils/retry.rs:143-149 | each backoff delay is the multiplier times the one before, up to the cap, counted from the base delay at attempt 0, so that the first retry sleeps multiplier times base |
| Retry.DelayMonotoneIff | src/utils/retry.rs:143-149 | unjittered delays never decrease exactly while the attempt number fits i32 (or the delay is constant or capped from the start); past it they fall back to the base delay |
| Retry.BackoffDelayBounds | src/utils/retry.rs:136-159 | the delay is capped, and a jittered delay lies between half and all of the unjittered one |
| Retry.JitterKeepsOrder | src/utils/retry.rs:151-155 | with a multiplier of at least 2 jitter never makes a delay below the cap shorter than the one before |
| Retry.TotalSleepBounded | src/services/balancer.rs:245-273 | the total sleep before the n-th call is at most n-1 maximal delays, under any nest of error filters |
| Health.CountersAreTrails | src/utils/health.rs:97-111 | after any history the counters are the trailing failure and success runs modulo 2^32, and total errors count every failure up to saturation |
| Health.RecentErrorsClosedForm | src/utils/health.rs:100-110 | after any history recent errors are the current failure run modulo 2^32; 0 once the success run reaches the threshold; else the previous failure run, or the seed |
| Health.HealthyIff | src/utils/health.rs:154-156 | exactly which histories make a backend healthy |
| Health.RecoversIff | src/utils/health.rs:21-25 | exactly when one more check turns an unhealthy backend healthy: a success, when it completes the promised run; a failure, when it does not follow a failure and the unhealthy threshold is above 1, or when it wraps the u32 failure count |
| Health.RecoversWithoutThreshold | src/utils/health.rs:24-25 | the documented recovery threshold can be bypassed: three failures, a success and a failure count as healthy |
| Health.FirstFailureRecovers | src/utils/health.rs:24-25 | a second bypass: a backend seeded unhealthy is made healthy by its first check failing |
| Health.HealthChecker.Round | src/utils/health.rs:96-112 | one tick applies each result to its own backend and skips results without metrics |
| Health.RecordDialResult | src/utils/health.rs:141-151 | only the indexed entry changes: a success clears its recent errors, a failure adds one to recent and total errors, saturating; an index out of range changes nothing |
| FailureCounts.RecentErrorsOverRun | src/services/balancer.rs:213-229 | over every run that keeps a backend, its recent errors are min(2^32-1, b + f): b what the last success (0), drain (2^32-1), undrain of a maximum (0) or the start set, f its failed dials since |
| FailureCounts.FailureMovesPickIff | src/strategies/health_weighted.rs:23-38 | after a dial that fails, while no score overflows, health-weighted selection leaves the backend exactly when another is less than 500000 worse, or just that and further left |
| FailureCounts.ReportsConserved | src/services/balancer.rs:222-231 | over every run each failed dial is reported to the strategy or dropped at most once |
| Address.PrintedIsAccepted | src/services/balancer.rs:684-695 | every non-empty host followed by a colon and any spelling of a port in 1..65535 is accepted, and splitting at the last colon recovers both |
| Address.AcceptedIsPrinted | src/services/balancer.rs:684-695 | every accepted address is such a spelling: an optional plus sign, leading zeros and the decimal port |
| Address.RefusedBecause | src/services/balancer.rs:684-695 | an address is refused for lack of a port exactly when it has no colon, for an empty host exactly when its only colon comes first, and otherwise for its port |
| Balancer.LoadBalancer.New | src/services/balancer.rs:60-87 | fails for an empty pool or mismatched metrics, otherwise holds exactly the given backends and metrics without ids |
| Balancer.LoadBalancer.BeginDial | src/services/balancer.rs:156-184 | a bad address or an empty pool changes nothing; otherwise the strategy's pick is counted on that member only |
| Balancer.LoadBalancer.HandleDialSuccess | src/services/balancer.rs:213-220 | clears the member's recent errors and nothing else |
| Balancer.LoadBalancer.CountDialError | src/services/balancer.rs:222-229 | on the indexed member only: one less active connection, one more recent and total error, all saturating |
| Strategies.ErrorMattersIff | src/services/balancer.rs:230 | reporting a dial error changes a strategy exactly when it is failover, the error is its primary's, and there is another backend to move to; it then moves to the next one, or back to the first |
| Balancer.LoadBalancer.Dial | src/services/balancer.rs:150-211 | a whole dial: pool, strategy and result after the first attempt that ends the retry loop |
| Balancer.LoadBalancer.DropGuard | src/services/balancer.rs:632-649 | decrements the indexed member only at an unchanged generation and a free lock |
| Balancer.LoadBalancer.AddBackend | src/services/balancer.rs:303-320 | appends one record with default metrics and keeps the generation |
| Balancer.LoadBalancer.RemoveBackend | src/services/balancer.rs:330-340 | the three vectors together lose one record, and the generation is bumped |
| Balancer.LoadBalancer.RemoveBackendById | src/services/balancer.rs:357-363 | removes the first record with the id, if any |
| Balancer.LoadBalancer.ReplaceBackends | src/services/balancer.rs:379-399 | all records become new ones with default metrics; an empty list is refused and changes nothing |
| Balancer.LoadBalancer.DrainBackend | src/services/balancer.rs:404-413 | marks the member as draining |
| Balancer.LoadBalancer.UndrainBackend | src/services/balancer.rs:425-434 | clears recent errors exactly if they were at the maximum, and changes nothing else |
| Machine.BeginKeepsIff | src/services/balancer.rs:165-182 | counting a dial in keeps the conservation law exactly when the picked counter is below its u32 limit |
| Machine.AddKeepsIff | src/services/balancer.rs:303-320 | adding a backend keeps the books exactly when no decrement is pending on its index |
| Machine.RemovalRaceIff | src/services/balancer.rs:640-646 | after a removal a pending decrement hits its own backend, or nothing if that has left, exactly when its index is earlier, or both are the last, or it was past the end already |
| Machine.RemoveKeepsIff | src/services/balancer.rs:330-340 | a removal keeps the books exactly when it leaves every pending decrement right and no live guard carries the next generation |
| Machine.ReplacementRaceIff | src/services/balancer.rs:640-646 | after a replacement a pending decrement is right exactly when its index is past the end of the new pool |
| Machine.ReplaceKeepsIff | src/services/balancer.rs:379-399 | a replacement keeps the books exactly when every pending index is past the new end and no live guard carries the next generation |
| Machine.StepGoodIff | src/services/balancer.rs:165-649 | every enabled step of dials, guards and reconfigurations keeps conservation and guard identity exactly when it is tame |
| Runs.RunGoodIff | src/services/balancer.rs:165-649 | a run of enabled steps keeps them in every state it visits exactly when each of its steps is tame |
| Runs.EveryRunConserves | src/services/balancer.rs:165-649 | in every state a tame run reaches from construction and for each backend: active = seed + dials + live guards + pending drops + leaked; dials begun = succeeded + failed + cancelled + under way; total_dials and total_errors follow exactly; every pending decrement is right |
| Identity.IdentityStepIff | src/services/balancer.rs:330-399 | a step keeps guard identity exactly when it brings no stale guard back to life on another backend's index |
| Identity.IdentityIff | src/services/balancer.rs:640-642 | over every run of enabled steps, guard identity holds in every state exactly when no step does |
| Identity.GuardsNameTheirBackend | src/services/balancer.rs:640-646 | from construction on, in every run with fewer than 2^64 removals and replacements, a guard of the present generation names its own backend |
| Books.MemberStepIff | src/services/balancer.rs:165-649 | a step that keeps a backend keeps its books exactly when that backend's own counter does not wrap, no stray decrement lowers it, and a removal neither moves what is pending on it nor revives a guard of it |
| Books.MemberBooksIff | src/services/balancer.rs:165-649 | over every run that keeps a backend its books balance in every state exactly when each step meets that condition, whatever happens to the other backends |
| Runs.NeverSaturates | src/services/balancer.rs:222-226 | in such states, wherever a count is decremented it is positive and the dial's or guard's own, so no saturating subtraction saturates; a decrement past the end changes nothing and its backend has left |
| Runs.SurvivorKeepsRecord | src/services/balancer.rs:303-340 | across add, remove and replace each survivor keeps its backend, id and metrics, and newcomers are new backends |
| Runs.ReplacementPicks | src/services/balancer.rs:379-399 | after a replacement dials are picked over blank metrics by the new strategy, or without one by the old strategy in its old state |
| Runs.NewStrategyPicks | src/services/balancer.rs:438-440 | after a change of strategy dials are picked over the present metrics by the new strategy |
| Leaks.InflationOverRun | src/services/balancer.rs:632-649 | the reported count less seed, dials, live guards and pending drops grows over every run that keeps the backend and meets its condition by exactly the connections the run loses track of, so it never falls |
| Leaks.CountRightIff | src/traits/strategy.rs:44-52 | the documented convergence fails: a count that was right is right after a run exactly when the run cancels no dial of that backend, drops none of its guards under contention, and removes no member while it has live guards; otherwise it is too high |
| Leaks.StartsExact | src/services/balancer.rs:60-87 | at construction every count is right and every backend's books balance |
| Leaks.AddsExact | src/services/balancer.rs:303-320 | a backend is added with a right count and balanced books |
| Races.DialArms | src/services/balancer.rs:165-211 | one dial that succeeds leads by a tame run to a live guard of the present generation, where the next rows start |
| Races.RemovalRace | src/services/balancer.rs:640-646 | the run check, removal, decrement from any such state: harmless for a later member; otherwise the next backend's count is lowered, or, for the last member, none, and its own stays too high unless it is the one removed |
| Races.ReplacementRace | src/services/balancer.rs:640-646 | the run check, replacement, decrement from any such state: the decrement saturates on a new backend's count of 0 |
| Races.GenerationWrapRevives | src/services/balancer.rs:334-337 | a run of 2^64-1 tame rounds of adding and removing a backend, then one more removal, after which a live guard from the start passes its check although its index holds another backend |
| Draining.DrainTakesEffect | src/services/balancer.rs:404-434 | draining a member puts it in the state the next rows keep, with no dial under way; undraining ends it |
| Draining.NoNewDialIff | src/services/balancer.rs:401-413 | over every run that keeps a backend and health-weighted selection, it gets no new dial exactly when at each pick another backend scores less, or the same further left |
| Draining.DrainPersists | src/services/balancer.rs:401-413 | in such a run a drained backend stays draining until it is undrained |
| Draining.BetterSuffices | src/services/balancer.rs:401-413 | for a drained backend whose score cannot overflow it is enough that at each pick some backend scores below 500000*(2^32-1) |
| Draining.SkippedIff | src/strategies/health_weighted.rs:23-38 | health-weighted selection skips a backend exactly when another scores less, or the same further left |
| Draining.UnoutscoredLosesDrain | src/services/balancer.rs:401-413 | the run drain, dial, success on a member that no other outscores dials it and ends its drain |
| Draining.LoneDrainedIsDialled | src/services/balancer.rs:401-413 | that happens to a lone backend whatever its metrics |
| Spreading.OpensStayEven | src/strategies/least_connections.rs:26-42 | over any interleaving without failures or counted closes, least connections keeps the counts even: max minus min at most 1 |
| Reconcile.RemoveVanished | src/utils/discovery.rs:277-282 | the removal loop leaves exactly the untracked and rediscovered members in order, duplicates included, and bumps the generation once per removal |
| Reconcile.AddNew | src/utils/discovery.rs:284-292 | the second loop appends a member for each descriptor unknown to the snapshot, up to the first factory failure |
| Reconcile.Reconcile | src/utils/discovery.rs:266-295 | the in-place diff refines filter-and-append: kept members with their metrics, then the new ones before the first failure; success exactly if there is none |
| Reconcile.ReconciledIds | src/utils/discovery.rs:266-295 | the resulting id list in closed form, complete or stopped at a failure |
| Reconcile.ReconciledMembers | src/utils/discovery.rs:277-292 | member by member: first all members whose id stays, in order and as they were, then for each descriptor not tracked before, up to the first factory failure and in order, the backend the factory made for it under its id with blank metrics |
| Reconcile.Idempotent | src/utils/discovery.rs:271-294 | reconciling again with the same descriptors removes nothing, makes nothing and changes no member |
| Reconcile.ResumableIff | src/utils/discovery.rs:284-292 | failure and retry end in the same id list as an uninterrupted run exactly when no later unknown descriptor repeats an earlier id |
| Reconcile.DistinctIdsResume | src/utils/discovery.rs:284-292 | distinct descriptor ids always resume |
| Reconcile.RepeatedIdIsLost | src/utils/discovery.rs:284-292 | a repeated id is lost when the factory fails between its two descriptors |

## Left out

- TLS, Tower, the C interface and the DNS, Consul and etcd clients: wrappers over libraries.
- Builders, error texts, strategy names, logging and the read and write forwarding of connections: they hold no state and take no decision that a property could be about.
- Timers, spawning, shutdown and wall-clock time, and with them `total_timeout`, which no policy of the repository sets.
- Rounding, infinities and NaN of floating-point delays; an infinite raw delay, which skips the jitter, does not arise over reals.
- Cancellation of `remove_backend` or `replace_backends` between their awaits: only completed operations are steps.
- Custom strategies and custom retry policies supplied by a caller.
- Distribution of random picks and of address hashes: only that they fall inside the pool.
- More than 2^32-1 attempts of an unbounded retry policy.
- `is_transient_error`, `remove_backend_by_ptr` and `from_factories`: a search for fixed phrases in an error text, a search by address that then calls `remove_backend`, and a loop that collects factory results into a new balancer.
- Retry.DialWithRetry: says nothing about an unbounded policy on a stream that never stops, because the loop then does not return.
- Balancer.LoadBalancer.Dial: describes a dial with nothing else running; interleavings are the subject of the machine.
- Balancer.LoadBalancer.DropGuard: checks and decrements in one step; the machine separates the two.
- Drain guarantees for strategies that ignore recent errors: the code gives none.
