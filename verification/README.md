# shm-spsc: a model of the shared-memory queue

shm-spsc moves fixed-size items between two processes through a ring in shared memory. The
producer owns `writeIdx`, the consumer owns `readIdx`, and each keeps a private, possibly stale
copy of the other's index. A pid slot per role says who may act; processes may die at any point
and be replaced. This project models that and proves what the ring, the role claims, the bring-up
of a segment, the movable handles and the demo pipeline promise, for every run.

`dafny verify dfyconfig.toml` checks everything. Its options turn automatic induction off: every
induction here is written out.

## How it is organised

| file | what it holds |
|---|---|
| `Machine.dfy` | the sizes of the unsigned integers |
| `Positions.dfy` | modular index arithmetic: the slot of a position, used and free counts, the two runs of a batch |
| `Geometry.dfy` | the same counts in wrapping 64-bit arithmetic; sizes, the control block, `validate` |
| `RingSpec.dfy` | one handle's calls as functions on a value, batches against repeated single operations |
| `Queue.dfy` | the same calls in place, on a control block and a slot array, proved against `RingSpec` |
| `System.dfy` | the step machine: any number of processes, word-by-word copies, claims, detach, crashes |
| `Invariant.dfy`, `RingSteps.dfy` | the invariant and one lemma per step that keeps it |
| `Roles.dfy` | the claim protocol by itself |
| `Fifo.dfy`, `Safety.dfy` | the atomic bounded FIFO, and the theorems about every run |
| `Takeover.dfy`, `Scenarios.dfy` | exactly when a takeover is safe, and runs that show each proviso is needed |
| `Sequential.dfy` | an uninterrupted call of the machine is the call of `RingSpec` |
| `Bystander.dfy` | `size` called by a process that is neither endpoint |
| `Caches.dfy` | what the cached indices stand for |
| `Recovery.dfy` | taking over from a dead process and going on |
| `Blocking.dfy`, `Calls.dfy` | `peerAlive`, the loops of `push` and `pop(out)`, and whole blocking calls inside the machine |
| `WeakMemory.dfy`, `WeakSafety.dfy` | the ring again under acquire/release visibility |
| `Bringup.dfy` | `create` against concurrent attachers |
| `Segments.dfy`, `Ownership.dfy` | segments and handles as resources: moves, detach, unmap, unlink |
| `Demo.dfy` | messages, checksum, send loop, drain loop, and the pair over the queue |

### Reading the model

- A step of the machine in `System` is at most one access to shared memory. The words of an item
  are copied one at a time in any order, so a torn item would be a reachable state if the protocol
  allowed it. `published` and `delivered` are histories that no step reads.
- The machine's push takes a batch; `try_push` is a batch of one (`RingSpec.TryPushIsPushOne`).
  `front()` ... `pop()` is the zero-copy pop, whose item is whatever the slot holds at `pop()`.
- Machine indices are plain integers. `Geometry` shows that the 64-bit expressions compute the same.
- A run is *careful* when a process opens at most one handle per role and every winning claim falls
  in its window. The code enforces neither, and both are exact: `Roles.ExclusiveIffSoleHandle`,
  `Takeover.TakeoverSafeIffInWindow`. `Roles` needs only the first. A run is *unmoved* when, more
  simply, no role advances between a claimant's snapshot and its claim; unmoved runs are careful.
- A blocking call in `Calls` is a list of rounds: an attempt, then the loads of the liveness test,
  with the steps of all other processes anywhere in between. The pid load and `kill` are two steps.

### Where code and comments differ

- `bind` takes its two snapshots before it owns the role. If a previous owner of the role advances
  in between, the new owner can start with a cache that is a lap off, and the ring is then
  unsafe. `Takeover` gives the exact condition.
- The remark that `size()` may be inconsistent applies only to a caller that is neither endpoint:
  `Safety.EndpointSizeExact`, `Scenarios.BystanderMisled`. Even while the consumer has not passed the
  loaded `writeIdx`, such a caller can get a size the queue never had (`Bystander.NeverTheSize`);
  `Bystander.SizeTrueIff` says exactly when its answer is the size at an instant of the call.
- `pop(out)` returning false means drained, but it does not mean that no producer is there: between
  the pid load and `kill` the role can change hands (`Blocking.ReplacedInBetween`). It is final if and
  only if `peerAlive` would still be false at the load of `writeIdx` (`Blocking.FalsePopFinalIff`).
- `validate` computes the needed size with wrapping arithmetic and so accepts some blocks `create`
  never writes: `Geometry.ForgedBlockAccepted`. It does not test for slots at all, nor that they lie
  behind the control block: `Geometry.SlotlessBlockAccepted`, `Geometry.FreshRingNeedsSlots`,
  `Geometry.OverlappingBlockAccepted`, `Geometry.SlotsClearIff`.
- `push_n` and `pop_n` compute a wrong index on a ring of more than 2^63 slots when index plus count
  wraps: `Geometry.NextBatchIndexExact`, `Geometry.NextBatchIndexWraps`. No such ring comes into
  being: `ftruncate` takes a signed size (include/shmspsc/ShmSegment.h:50), so `create` fails first.
- `create` stores `sizeof(T)` in 32 bits, so an element of 2^32 bytes or more is created and then
  refused by `validate`: `Geometry.CreatedBlockAccepted`, `Geometry.HugeElementRefused`.

## Model

| member | source | states |
|---|---|---|
| `Positions.SlotInjective` | include/shmspsc/ShmSpscQueue.h:506-512 | within one lap, different positions have different slots |
| `Positions.UsedIsDistance` | include/shmspsc/ShmSpscQueue.h:510-512 | the used count of two slots is the distance of their positions |
| `Positions.PositionBelow` | include/shmspsc/ShmSpscQueue.h:235-243 | a cached read index stands for exactly one position in the lap below the producer |
| `Positions.PositionAbove` | include/shmspsc/ShmSpscQueue.h:299-307 | a cached write index stands for exactly one position in the lap above the consumer |
| `Positions.RunSlotIsSlot` | include/shmspsc/ShmSpscQueue.h:244-250 | item i of a two-part copy goes to slot (start + i) mod slots |
| `Geometry.SlotCountsExact` | include/shmspsc/ShmSpscQueue.h:506-512 | `freeSlots` and `usedSlots` in wrapping 64-bit arithmetic equal their unbounded values for every slot count and add up to the capacity |
| `Geometry.NextIndexExact` | include/shmspsc/ShmSpscQueue.h:213-216 | a single step reaches the next position's slot for every slot count |
| `Geometry.NextBatchIndexExact` | include/shmspsc/ShmSpscQueue.h:251-254 | the batched index is right if and only if index + count does not wrap 64 bits |
| `Geometry.NextBatchIndexSafe` | include/shmspsc/ShmSpscQueue.h:315-318 | up to 2^63 slots the batched index is always (position + count) mod slots |
| `Geometry.NextBatchIndexWraps` | include/shmspsc/ShmSpscQueue.h:251-255 | at 2^63 + 1 slots a batch exists that publishes a wrong index |
| `Geometry.BytesNeededExact` | include/shmspsc/ShmSpscQueue.h:139-148 | throws exactly when the true size exceeds `size_t`, and is the true size otherwise |
| `Geometry.CreateFails` | include/shmspsc/ShmSpscQueue.h:150-158 | `create` is refused exactly when the geometry of at least one item does not fit |
| `Geometry.CreatedBlock` | include/shmspsc/ShmSpscQueue.h:161-171 | a written block has at least two slots and declares its true size |
| `Geometry.CreatedBlockAccepted` | include/shmspsc/ShmSpscQueue.h:470-504 | `validate` accepts what `create` wrote for the same layout exactly when the mapping is large enough and `sizeof(T)` is below 2^32 |
| `Geometry.CreatedBlockAcceptedIff` | include/shmspsc/ShmSpscQueue.h:161-171 | a block written by one build is accepted by another if and only if cache line and alignment agree, the element size is what 32 bits kept of the writer's, and the mapping is large enough |
| `Geometry.SameLayoutOnly` | include/shmspsc/ShmSpscQueue.h:479-492 | builds with element sizes below 2^32 accept each other's segments if and only if their layouts are the same and the mapping is large enough |
| `Geometry.EveryFieldChecked` | include/shmspsc/ShmSpscQueue.h:470-504 | an accepted block is refused with any other magic, version, cache line, element size or alignment, or a declared size beyond the mapping |
| `Geometry.SlotsBehindGuard` | include/shmspsc/ShmSpscQueue.h:71-86 | in a created segment the indices are on lines of their own and every slot lies behind the guard line |
| `Geometry.AcceptedBlockFits` | include/shmspsc/ShmSpscQueue.h:496-503 | any accepted block keeps every slot inside the mapping exactly when its size computation did not wrap |
| `Geometry.CreatedBlockFits` | include/shmspsc/ShmSpscQueue.h:150-176 | every accepted block that `create` wrote keeps every slot inside the mapping |
| `Geometry.ForgedBlockAccepted` | include/shmspsc/ShmSpscQueue.h:496-498 | a block whose size wraps to nothing is accepted although its slots run off the mapping |
| `Geometry.FreshRingNeedsSlots` | include/shmspsc/ShmSpscQueue.h:506-508 | on a fresh ring `freeSlots` stays below the slot count if and only if there is a slot, and lets something in as well if and only if there are two |
| `Geometry.SlotlessBlockAccepted` | include/shmspsc/ShmSpscQueue.h:470-504 | a block with no slots is accepted, and `push_n` would be granted 2^64 - 1 items |
| `Geometry.SlotsClearIff` | include/shmspsc/ShmSpscQueue.h:432-434 | slots and control block are apart if and only if there are no slots or the declared offset is past the block |
| `Geometry.OverlappingBlockAccepted` | include/shmspsc/ShmSpscQueue.h:470-504 | a block whose slots start on the control block is accepted |
| `Geometry.HugeElementRefused` | include/shmspsc/ShmSpscQueue.h:165 | an element of 2^32 + 8 bytes is created with its size cut to 8 and refused by every attacher |
| `RingSpec.PushNAppends` | include/shmspsc/ShmSpscQueue.h:229-257 | a batch is accepted up to the true free room and appended in order; nothing else moves |
| `RingSpec.TryPushAppends` | include/shmspsc/ShmSpscQueue.h:211-226 | fails exactly when full, otherwise appends its argument |
| `RingSpec.TryPushIsPushOne` | include/shmspsc/ShmSpscQueue.h:211-257 | `try_push` and `push_n` of one leave the same ring, index and cache |
| `RingSpec.PushNIsPushEach` | include/shmspsc/ShmSpscQueue.h:229-257 | `push_n` equals `try_push` repeated to the first failure: same count, slots, index and final cache |
| `RingSpec.PushKeepsConsumers` | include/shmspsc/ShmSpscQueue.h:229-257 | a push leaves every handle that was fit to pop so, however stale its caches |
| `RingSpec.PopNTakesOldest` | include/shmspsc/ShmSpscQueue.h:295-321 | takes as many as wanted and available from the front, in order, and leaves the rest |
| `RingSpec.TryPopTakesOldest` | include/shmspsc/ShmSpscQueue.h:285-293 | fails exactly when empty, otherwise takes the oldest item |
| `RingSpec.TryPopIsPopOne` | include/shmspsc/ShmSpscQueue.h:285-321 | `try_pop` and `pop_n` of one agree in everything |
| `RingSpec.PopNIsPopEach` | include/shmspsc/ShmSpscQueue.h:295-321 | `pop_n` equals `try_pop` repeated to the first failure |
| `RingSpec.PopKeepsProducers` | include/shmspsc/ShmSpscQueue.h:295-321 | a pop leaves every handle that was fit to push so |
| `Queue.ShmSpscQueue.constructor` | include/shmspsc/ShmSpscQueue.h:430-436 | a new handle's caches are the current indices, which makes it fit for either role |
| `Queue.ShmSpscQueue.TryPush` | include/shmspsc/ShmSpscQueue.h:211-226 | in place, appends one item or reports a full ring, touching only its own index, cache and slot |
| `Queue.ShmSpscQueue.CopyRunIn` | include/shmspsc/ShmSpscQueue.h:245-250 | the pair of copies stores the batch across the wrap and changes no other slot |
| `Queue.ShmSpscQueue.Room` | include/shmspsc/ShmSpscQueue.h:235-244 | the granted count and the refreshed cache of `push_n` |
| `Queue.ShmSpscQueue.PushN` | include/shmspsc/ShmSpscQueue.h:229-257 | in place, equals the batch specification and appends the accepted prefix |
| `Queue.ShmSpscQueue.Front` | include/shmspsc/ShmSpscQueue.h:260-269 | null exactly when empty, otherwise the slot of the oldest item |
| `Queue.ShmSpscQueue.Pop` | include/shmspsc/ShmSpscQueue.h:274-283 | after a `front` that found one, removes exactly the oldest item |
| `Queue.ShmSpscQueue.TryPop` | include/shmspsc/ShmSpscQueue.h:285-293 | old contents are the item handed out followed by the new contents |
| `Queue.ShmSpscQueue.CopyRunOut` | include/shmspsc/ShmSpscQueue.h:309-314 | the pair of copies fetches the run across the wrap and leaves the rest of the destination alone |
| `Queue.ShmSpscQueue.Available` | include/shmspsc/ShmSpscQueue.h:299-308 | the granted count and the refreshed cache of `pop_n` |
| `Queue.ShmSpscQueue.PopN` | include/shmspsc/ShmSpscQueue.h:295-321 | old contents are the items copied out followed by the new contents |
| `Queue.ShmSpscQueue.Size` | include/shmspsc/ShmSpscQueue.h:360-364 | with nobody else acting, the number of items held |
| `Queue.ShmSpscQueue.Empty` | include/shmspsc/ShmSpscQueue.h:368-371 | with nobody else acting, whether there are none |
| `Queue.PassOne` | include/shmspsc/ShmSpscQueue.h:211-293 | two handles on one queue, from any state and with any staleness of the caches they do not use: a `try_push` at one end and a `try_pop` at the other |
| `Queue.PushAtOneEnd` | include/shmspsc/ShmSpscQueue.h:229-257 | a batch pushed through one handle is what the other sees appended |
| `Queue.PopAtOtherEnd` | include/shmspsc/ShmSpscQueue.h:295-321 | a batch popped through one handle leaves the other fit to push |
| `Queue.Transfer` | include/shmspsc/ShmSpscQueue.h:229-321 | two handles, any number of laps, any buffer: everything pushed at one end arrives at the other in order |
| `System.AssembleDue` | include/shmspsc/ShmSpscQueue.h:309-314 | a completely copied buffer of due words is the run of due items, none torn |
| `Invariant.RoleExclusive` | include/shmspsc/ShmSpscQueue.h:442-467 | two bound handles of one role are the same handle, alive, with its pid in the slot |
| `Invariant.CasKeepsClaim` | include/shmspsc/ShmSpscQueue.h:460-466 | a compare-and-swap, won, lost or spuriously failed, keeps who-owns-what consistent |
| `Invariant.DetachKeepsClaim` | include/shmspsc/ShmSpscQueue.h:414-427 | so does a detach |
| `Invariant.TestKeepsClaim` | include/shmspsc/ShmSpscQueue.h:449-459 | so does the liveness test; with one handle per process it never wins by finding its own pid |
| `Roles.RolesExclusive` | include/shmspsc/ShmSpscQueue.h:430-468 | in every run of any number of racing, dying, detaching, returning processes: at most one holder per role, and the slot has a live pid exactly when there is a holder, whose pid it is |
| `Roles.DetachKeepsOthers` | include/shmspsc/ShmSpscQueue.h:414-427 | detach marks its own slot and erases nobody else's claim |
| `Roles.LoserSeesWinner` | include/shmspsc/ShmSpscQueue.h:442-466 | of two claimants that judged the slot free, the loser rereads the winner's pid and is turned away |
| `Roles.ExclusiveIffSoleHandle` | include/shmspsc/ShmSpscQueue.h:448-466 | opening a handle leaves its role exclusive in every continuation if and only if the process has no other handle of that role, bound or not |
| `RingSteps.ReadsItemDue` | include/shmspsc/ShmSpscQueue.h:308-314 | every word a reader copies is in bounds and is a word of the item due |
| `RingSteps.WriteTarget` | include/shmspsc/ShmSpscQueue.h:244-250 | every slot a writer copies into is past the published items and within a lap of the unread ones |
| `RingSteps.ConsumesItemsDue` | include/shmspsc/ShmSpscQueue.h:315-320 | the index store of a pop hands over exactly the next items, whole |
| `RingSteps.StepKeepsInv` | include/shmspsc/ShmSpscQueue.h:211-321 | every step of every process keeps the invariant |
| `RingSteps.RunKeepsInv` | include/shmspsc/ShmSpscQueue.h:211-321 | every careful run keeps it |
| `Fifo.Conservation` | include/shmspsc/ShmSpscQueue.h:211-321 | in every run of the atomic FIFO, accepted items are the delivered ones followed by the waiting ones, within capacity |
| `Safety.LiveIsUnread` | include/shmspsc/ShmSpscQueue.h:506-512 | the slots from `readIdx` to `writeIdx` hold exactly the published, undelivered items in order |
| `Safety.StepRefines` | include/shmspsc/ShmSpscQueue.h:211-321 | each step is one step of the atomic FIFO, taken at the own-index store, or none |
| `Safety.RunRefines` | include/shmspsc/ShmSpscQueue.h:211-321 | every interleaving of word-level steps, single and batched, with crashes, is a run of the atomic bounded FIFO |
| `Safety.DeliveredIsPrefix` | include/shmspsc/ShmSpscQueue.h:211-321 | from a fresh segment, published = delivered + waiting in every state: no gap, duplicate, reorder or torn item, at most capacity waiting |
| `Sequential.UninterruptedPush` | include/shmspsc/ShmSpscQueue.h:229-257 | `push_n` of the machine, nobody else acting, leaves slots, indices and caches as `RingSpec.PushN` says and publishes exactly the accepted prefix |
| `Sequential.UninterruptedPop` | include/shmspsc/ShmSpscQueue.h:295-321 | `pop_n` of the machine, nobody else acting, is `RingSpec.PopN`, and its items are delivered |
| `Safety.CachesNeverOverpromise` | include/shmspsc/ShmSpscQueue.h:235-244 | in every careful run `freeSlots` on the cache is at most the true room and `usedSlots` on the cache at most the true number of items |
| `Safety.PushFailsIffFull` | include/shmspsc/ShmSpscQueue.h:237-244 | after reloading, a push gives up exactly when the queue is full at that instant, else is granted the exact room |
| `Safety.PopFailsIffEmpty` | include/shmspsc/ShmSpscQueue.h:301-308 | after reloading, a pop gives up exactly when the queue is empty at that instant, else is granted exactly what is there |
| `Safety.CopiesDisjoint` | include/shmspsc/ShmSpscQueue.h:244-257 | with a batch write and a batch read both mid-copy, slots are in bounds, are those of P + i and C + j, and never coincide |
| `Safety.CopiesNeverBlocked` | include/shmspsc/ShmSpscQueue.h:247-250 | no word copy of a granted run ever has to wait |
| `Safety.OwnIndexStable` | include/shmspsc/ShmSpscQueue.h:360-371 | while its owner takes no step an index stands still, whatever others do |
| `Safety.EndpointSizeExact` | include/shmspsc/ShmSpscQueue.h:354-371 | `size` and `empty` called by an endpoint are the truth at one of their two loads |
| `Safety.BystanderSizeInRange` | include/shmspsc/ShmSpscQueue.h:360-364 | for anyone else `size` is still between 0 and capacity |
| `Bystander.AnswerIsRemainder` | include/shmspsc/ShmSpscQueue.h:360-364 | for anyone else `size` is the distance of the loaded positions modulo the slot count; slots less the overrun when the consumer passed the loaded `writeIdx` |
| `Bystander.SizeAtInstant` | include/shmspsc/ShmSpscQueue.h:354-364 | the answer is the size at a given instant of the call if and only if the pushes before and the pops after it are whole laps; with the loaded `writeIdx` not passed it is at most that size, and equal if and only if there were none |
| `Bystander.SizeTrueIff` | include/shmspsc/ShmSpscQueue.h:354-364 | the answer is the size at some instant of the call if and only if that holds of some instant; with the loaded `writeIdx` not passed, if and only if the call's pops all come before its pushes |
| `Bystander.NeverTheSize` | include/shmspsc/ShmSpscQueue.h:354-364 | a run with the loaded `writeIdx` not passed in which the queue is never empty and the answer is 0 |
| `Takeover.UnmovedClaimInWindow` | include/shmspsc/ShmSpscQueue.h:435-466 | if the role stood still between snapshot and claim, the claim is in its window |
| `Takeover.UnmovedRunIsCareful` | include/shmspsc/ShmSpscQueue.h:430-468 | any run of crashes and takeovers in which that holds keeps published = delivered + waiting |
| `Caches.CachesStandForPositions` | include/shmspsc/ShmSpscQueue.h:217-243 | in every unmoved run RC <= C <= P < RC + slots and C <= WC <= P, each cache is the slot of the position it was loaded at and of no other in that lap, and counts on it are exact for that position |
| `Takeover.InvIsSafe` | include/shmspsc/ShmSpscQueue.h:211-321 | from the invariant on, every careful continuation is sound |
| `Takeover.FinishCopy` | include/shmspsc/ShmSpscQueue.h:244-250 | a copy in progress can always be completed |
| `Takeover.OverpromisedRoom` | include/shmspsc/ShmSpscQueue.h:236-255 | a producer whose cache promises too much room can overfill the ring |
| `Takeover.OverpromisedItems` | include/shmspsc/ShmSpscQueue.h:300-313 | a consumer whose cache promises too many items reads an unpublished slot |
| `Takeover.TakeoverSafeIffInWindow` | include/shmspsc/ShmSpscQueue.h:435-467 | winning a role is safe for ever after if and only if the snapshot, measured from the role's own index, errs on the safe side at that instant |
| `Scenarios.StaleTakeoverReachable` | include/shmspsc/ShmSpscQueue.h:435-467 | for every slot count a run from a fresh segment wins a role with a stale snapshot and is unsafe afterwards |
| `Scenarios.BystanderMisled` | include/shmspsc/ShmSpscQueue.h:354-364 | a third party can compute a full queue while it is empty before and after |
| `Recovery.ConsumerRecovers` | include/shmspsc/ShmSpscQueue.h:430-468 | a consumer that dies at any step can be replaced by any live process; the queue is as it was and the next item taken is the oldest undelivered one |
| `Recovery.ProducerRecovers` | include/shmspsc/ShmSpscQueue.h:430-468 | likewise for a producer: nothing of its unfinished batch is published, nobody is left to publish it, and the next push appends behind what was published |
| `Recovery.NextPop` | include/shmspsc/ShmSpscQueue.h:285-293 | left to itself, an idle consumer takes the item due, whatever its cache says |
| `Recovery.NextPush` | include/shmspsc/ShmSpscQueue.h:211-226 | left to itself, an idle producer appends its item if there is room, whatever its cache says |
| `Recovery.FinishPush` | include/shmspsc/ShmSpscQueue.h:247-256 | a push that has been granted its slots can always be completed and publishes the granted prefix |
| `Blocking.GoneStaysGone` | include/shmspsc/ShmSpscQueue.h:378-387 | in every run, a role without a live owner stays so until a claim on it wins, and publishes or consumes nothing; for both roles |
| `Blocking.SeenGoneIsGone` | include/shmspsc/ShmSpscQueue.h:378-387 | `peerAlive` false, its pid load and `kill` at different times, means the role has no live owner if no claim on it won in between |
| `Blocking.GoneIsSeen` | include/shmspsc/ShmSpscQueue.h:378-387 | a role without a live owner at the pid load is reported gone however late `kill` comes |
| `Blocking.ZeroWithoutClaim` | include/shmspsc/ShmSpscQueue.h:383-385 | a role nobody has claimed reads 0 until a claim on it wins |
| `Blocking.ChecksIff` | include/shmspsc/ShmSpscQueue.h:325-335 | a failed attempt i is followed by a liveness test if and only if `peerCheckSpins` is 0 or i is a positive multiple of it |
| `Blocking.FalsePopMeansDrained` | include/shmspsc/ShmSpscQueue.h:339-352 | when `pop(out)` returns false, everything ever published had been delivered at its load of `writeIdx`; this stays so for as long as no producer claim wins after the pid load |
| `Blocking.FinalIffVacant` | include/shmspsc/ShmSpscQueue.h:378-387 | on an empty queue nothing more is published without a new claim if and only if nobody alive owns the producer role |
| `Blocking.FalsePopFinalIff` | include/shmspsc/ShmSpscQueue.h:339-352 | a false `pop(out)` is final in that sense if and only if `peerAlive` would be false at its load of `writeIdx` |
| `Blocking.ReplacedInBetween` | include/shmspsc/ShmSpscQueue.h:378-387 | a run in which the role changes hands between the pid load and `kill`: false is returned and a live producer publishes with no further claim |
| `Blocking.FailedPopStaysEmpty` | include/shmspsc/ShmSpscQueue.h:341-346 | with the producer gone, a failed `try_pop` makes the later `empty()` true |
| `Blocking.ReversedTestsLoseItem` | include/shmspsc/ShmSpscQueue.h:345-347 | testing emptiness before liveness would miss an item |
| `Blocking.BlockingPush` | include/shmspsc/ShmSpscQueue.h:324-337 | the loop ends at the first attempt that succeeds or is followed by a due test that sees the peer gone, with that answer, for every 32-bit `peerCheckSpins` |
| `Blocking.BlockingPop` | include/shmspsc/ShmSpscQueue.h:339-352 | the same for `pop(out)`, whose test must see the peer gone and then the queue empty |
| `Calls.AttemptComesTo` | include/shmspsc/ShmSpscQueue.h:211-226 | an attempt, everyone else acting meanwhile, appended exactly v or took exactly the item due, or changed nothing on its side with the queue full, or empty, as it returned |
| `Calls.CallComesTo` | include/shmspsc/ShmSpscQueue.h:324-352 | a blocking push that returns true published exactly v, one that returns false published nothing; a blocking pop that returns true delivered exactly the item due at its call, one that returns false delivered nothing and saw everything published delivered |
| `Calls.AnswerMeans` | include/shmspsc/ShmSpscQueue.h:324-352 | a round gives up if and only if its attempt failed, its number is one that is tested, a pid other than 0 was loaded whose process is not there, and for a pop the loaded indices are equal |
| `Calls.GaveUpAfterClaim` | include/shmspsc/ShmSpscQueue.h:378-387 | from a fresh segment a blocking push or pop gives up only after a claim on the peer's role has won: waiting for a peer that never attached goes on |
| `Calls.FalsePopIsFinal` | include/shmspsc/ShmSpscQueue.h:339-352 | the same if and only if for a whole blocking pop of the machine; and the condition holds if no producer claim won since the pid load |
| `Calls.CallEnds` | include/shmspsc/ShmSpscQueue.h:324-352 | if the peer is gone as attempt k (from 0) returns and is not replaced, the call has at most k + `peerCheckSpins` + 1 attempts, for push and pop and every `peerCheckSpins` |
| `Calls.CheckComes` | include/shmspsc/ShmSpscQueue.h:325-335 | a liveness test is never more than `peerCheckSpins` failed attempts away |
| `Calls.ReplayPush` | include/shmspsc/ShmSpscQueue.h:324-337 | the loop, fed with what the rounds of a finished call saw, makes exactly those rounds with that answer |
| `Calls.ReplayPop` | include/shmspsc/ShmSpscQueue.h:339-352 | likewise for `pop(out)` |
| `WeakMemory.ReadIsOrdered` | include/shmspsc/ShmSpscQueue.h:301-314 | the word being read was last written with the item due, by a write that happens before the read |
| `WeakMemory.WriteIsOrdered` | include/shmspsc/ShmSpscQueue.h:217-224 | the previous occupant's reads happen before the overwrite |
| `WeakMemory.StoredIndices` | include/shmspsc/ShmSpscQueue.h:251-255 | the positions the model stores are what the wrapped index updates compute |
| `WeakSafety.ReadIsForced` | include/shmspsc/ShmSpscQueue.h:301-314 | whichever visible write a read picks, it returns the word of the item due |
| `WeakSafety.SlotHoldsDue` | include/shmspsc/ShmSpscQueue.h:260-283 | what `front()` points at is, as a whole, the item due, whatever the producer is writing meanwhile |
| `WeakSafety.PushDecidesExactly` | include/shmspsc/ShmSpscQueue.h:235-243 | under stale caches a push is granted whole if and only if the position last acquired leaves room for all of it, and else reloads |
| `WeakSafety.PopDecidesExactly` | include/shmspsc/ShmSpscQueue.h:299-307 | likewise for a pop |
| `WeakSafety.ReloadedPushExact` | include/shmspsc/ShmSpscQueue.h:238-244 | after acquiring a store a push gives up if and only if the ring is full counted from it, and is else granted the exact room up to what it wants |
| `WeakSafety.ReloadedPopExact` | include/shmspsc/ShmSpscQueue.h:302-308 | likewise for a pop |
| `WeakSafety.HandOverKeeps` | include/shmspsc/ShmSpscQueue.h:414-466 | a role handed over by a clean detach, the successor's snapshot as old as the window allows, keeps the orderings |
| `WeakSafety.MoveKeepsInv` | include/shmspsc/ShmSpscQueue.h:211-321 | every move under acquire/release visibility keeps RC <= C <= WC <= P < RC + slots and the orderings |
| `WeakSafety.NoRace` | include/shmspsc/ShmSpscQueue.h:217-224 | no slot access races |
| `WeakSafety.WeakFifo` | include/shmspsc/ShmSpscQueue.h:211-321 | however stale the acquire loads, and across clean handovers, delivered is a prefix of published, at most capacity items wait, and nothing races |
| `Bringup.ReadyComesLast` | include/shmspsc/ShmSpscQueue.h:173-174 | a load returns ready = 1 only from the last store of `create` |
| `Bringup.AllStored` | include/shmspsc/ShmSpscQueue.h:161-171 | after that store every geometry field has its final value |
| `Bringup.AttacherSeesCreatedBlock` | include/shmspsc/ShmSpscQueue.h:182-209 | in every interleaving, an attacher past the ready test assembles the complete block, and is accepted exactly when layout and mapping allow |
| `Bringup.CreatorBindsFirst` | include/shmspsc/ShmSpscQueue.h:173-207 | nobody passes the ready test or holds a role before the creator has bound |
| `Bringup.CreatorNeverRefused` | include/shmspsc/ShmSpscQueue.h:173-176 | the creator's claim meets an untouched slot: it is never refused, never stuck, and loses a compare-and-swap only spuriously |
| `Bringup.CreatorKeepsRole` | include/shmspsc/ShmSpscQueue.h:447-467 | while the creator lives no attacher of another process wins its role: its pid stays in the slot and a rival that loads it is refused |
| `Segments.ShmSegment.Swap` | include/shmspsc/ShmSegment.h:150-155 | exchanges all four fields |
| `Segments.ShmSegment.Move` | include/shmspsc/ShmSegment.h:26 | takes everything and leaves the source empty |
| `Segments.ShmSegment.Reset` | include/shmspsc/ShmSegment.h:99-110 | unmaps once, unlinks only an owned name, and leaves an empty segment |
| `Segments.ReleasedKeepsName` | include/shmspsc/ShmSegment.h:97-110 | resetting a released segment unmaps it as before and leaves every name alone, where an owner would have unlinked its own |
| `Segments.ShmSegment.MoveAssign` | include/shmspsc/ShmSegment.h:27-33 | releases what was held and takes over the source; nothing at all on self-move |
| `Segments.SwapSegments` | include/shmspsc/ShmSpscQueue.h:127 | swapping two segments by moves unmaps and unlinks nothing |
| `Segments.QueueHandle.Move` | include/shmspsc/ShmSpscQueue.h:114 | takes the whole handle and leaves a default one |
| `Segments.QueueHandle.SwapWith` | include/shmspsc/ShmSpscQueue.h:126-135 | exchanges every field without side effects |
| `Segments.QueueHandle.Detach` | include/shmspsc/ShmSpscQueue.h:414-427 | clears the pid only if bound and still its own, then releases the segment |
| `Segments.QueueHandle.MoveAssign` | include/shmspsc/ShmSpscQueue.h:116-122 | detaches first, then takes over; nothing at all on self-move |
| `Ownership.StepKeeps` | include/shmspsc/ShmSpscQueue.h:105-135 | create, attach, failed attach, move, self-move, detach and destroy all keep one handle per mapping |
| `Ownership.MappingsHeldOnce` | include/shmspsc/ShmSegment.h:26-34 | in every run no access or unmap hits an unmapped address, nothing is unmapped twice, and each live mapping has exactly one handle |
| `Ownership.NothingLeaks` | include/shmspsc/ShmSegment.h:34 | once all handles are gone every mapping ever made was unmapped exactly once |
| `Ownership.PidSlotsTouched` | include/shmspsc/ShmSpscQueue.h:414-427 | apart from binding, a pid slot changes if and only if a bound handle whose pid is still in it is given up |
| `Ownership.BindThenDetach` | include/shmspsc/ShmSpscQueue.h:414-467 | binding and giving up again marks the handle's own pid slot and leaves every other as it was |
| `Ownership.OwnersAreCreators` | include/shmspsc/ShmSegment.h:36-57 | in every run an owning handle maps an object the run created under its name, and two owning handles never map the same object |
| `Ownership.AttachersKeepNames` | include/shmspsc/ShmSegment.h:59-79 | a run without `create` or `remove` leaves every name as it found it |
| `Ownership.MemberwiseMoveFaults` | include/shmspsc/ShmSpscQueue.h:109-113 | a defaulted move would make the second destructor write and unmap through a dead address |
| `Ownership.CreateKeepsNamesIff` | include/shmspsc/ShmSegment.h:42-56 | creating a name keeps every owner's name on its own object if and only if no live handle owns it |
| `Ownership.UnlinksOwnObjectOnly` | include/shmspsc/ShmSegment.h:99-110 | in every run with distinct owned names, a handle's end unlinks a name if and only if it owns it, and the name then led to an object the run created under it and the handle still maps |
| `Ownership.SameNameUnlinksOther` | include/shmspsc/ShmSegment.h:42-56 | without that, the first owner's end removes the second owner's name |
| `Demo.ChecksumOf` | src/common.h:24-35 | the loop computes the fold of the eight words in order |
| `Demo.ChecksumValue` | src/common.h:24-35 | the value is eight steps from 2166136261 over seq, seq >> 32 and payload words 0 to 5, in this order, each an exclusive or and a multiplication by 16777619 modulo 2^32 |
| `Demo.XorBits` | src/common.h:27 | the exclusive or of the model is the bitwise one |
| `Demo.BitsDetermine` | src/common.h:27 | bits determine a number, so that fixes it |
| `Demo.MakeMessage` | src/common.h:37-46 | number, stamp, payload and a checksum that passes |
| `Demo.PayloadWords` | src/common.h:41-43 | message 0 starts at 0, payload words rise by one and those of the next message are 31 higher, modulo 2^32 |
| `Demo.MixInjectiveInWord` | src/common.h:26-28 | a mixing step is injective in the word |
| `Demo.MixInjectiveInState` | src/common.h:26-28 | and in the state |
| `Demo.OneWordChangesHash` | src/common.h:24-35 | changing exactly one hashed word always changes the hash |
| `Demo.OneFieldChangesChecksum` | src/common.h:24-35 | messages that differ only in the low half of seq, only in its high half or only in one payload word have different checksums |
| `Demo.CorruptionDetected` | src/common.h:24-35 | so a message that passed its check fails it once any one of these has changed |
| `Demo.SendLoop` | src/demo_producer.cpp:36-44 | message i is the one made for number i; stops at the total, at a stop request or at the first failed push, and at nothing else |
| `Demo.CheckBatch` | src/demo_consumer.cpp:62-71 | carries the expected number and the exact error count over a batch |
| `Demo.LostCountsOnce` | src/demo_consumer.cpp:62-67 | one lost message is exactly one error, at the position after it |
| `Demo.RepeatCountsOnce` | src/demo_consumer.cpp:62-67 | one repeated message is exactly one error |
| `Demo.CorruptCountsOnce` | src/demo_consumer.cpp:62-67 | one message failing its check, its number intact, is exactly one error |
| `Demo.ReceivedUntil` | src/demo_consumer.cpp:53-60 | the loop leaves at the first poll that brought nothing, saw the peer gone and the queue empty, having received every batch before it |
| `Demo.LivePeerKeepsDraining` | src/demo_consumer.cpp:56-59 | while every poll saw the peer alive, everything polled is received |
| `Demo.Drain` | src/demo_consumer.cpp:49-82 | `errors` is exactly the number of received positions that break sequence or checksum, however the stream was split into batches |
| `Demo.DecodeEncode` | src/common.h:14-22 | a message survives being laid out as words |
| `Demo.EncodedIsMade` | src/common.h:37-46 | a made message, laid out as words, is the item for its number |
| `Demo.MadeIsUnique` | src/common.h:37-46 | number and stamp determine the message |
| `Demo.InSequenceHasNoBreaks` | src/demo_consumer.cpp:62-67 | items numbered 0, 1, 2, ... give no error |
| `Demo.DemoPairInSequence` | src/demo_producer.cpp:36-44 | in every run of the machine whose producer is the send loop, its counter is the number of messages published, and published and delivered are messages 0, 1, 2, ... as made |
| `Demo.SentInAll` | src/demo_producer.cpp:36-44 | after any number of blocking pushes of the machine, the last true or false, exactly the messages of those that returned true have been published, in order |
| `Demo.ReplaySend` | src/demo_producer.cpp:36-44 | the send loop on such calls goes on exactly while they return true, and what it accepted is what they published |
| `Demo.HandedIsDelivered` | src/demo_consumer.cpp:53-72 | the batches the pops of a run hand over are, in order, what is delivered |
| `Demo.ReplayDrain` | src/demo_consumer.cpp:49-82 | the drain loop, polling the batches such a run hands over, counts every delivered message and 0 errors |
| `Demo.DrainedAtExit` | src/demo_consumer.cpp:53-60 | when it leaves by its exit test, the loads of which are in the run, the producer's pid had been loaded and its process was gone, and it has received everything published up to the load of `writeIdx`, without an error |

## Left out

- Operating system calls: `shm_open`, `ftruncate`, `mmap`, `munmap`, `kill` and `getpid` become new objects and addresses, a set of live processes and a "mapping at least as large as requested" premise.
- Pid reuse and pid namespaces: a pid is never reused; handles inherited through `fork` are not used.
- Clocks: the deadlines of `attach` and `waitForPeer`, sleeping and yielding. An attacher may poll as often as it likes.
- Cache-line padding, throughput and latency; `percentile`, `printLatency`, `clockOverheadNs`, the benchmarks, signal handlers and printing.
- Segment name rules and exception texts.
- Queue.ShmSpscQueue.PushN: needs at most 2^63 slots, because beyond that the batched index can be wrong (`Geometry.NextBatchIndexExact` has the exact condition).
- Queue.ShmSpscQueue.PopN: the same bound, for the same reason.
- Queue.ShmSpscQueue.Pop: relies on the preceding `front()`, as the source demands; popping an empty ring is not modelled.
- `bind`'s claim loop, `attach`'s polling and the liveness calls are steps of the machines in `System` and `Bringup` rather than methods, because their meaning lies in what other processes do between two accesses.
- WeakSafety.WeakFifo: covers one bound pair and handovers after a clean detach; takeover after a crash, where no release store orders the dead owner's steps, and `peerAlive` (a relaxed load) are treated in the interleaving model only. Both sides start bound, with the fresh segment visible to both.
- Bringup.CreatorNeverRefused: pid loads and compare-and-swaps see the latest value; only the plain geometry fields and `ready` may be read stale.
- Blocking.BlockingPush: says what the loop does with the answers it gets; that these come from runs of the machine, and when such a call ends, is in module `Calls`.
- Blocking.BlockingPop: likewise.
- Ownership.MappingsHeldOnce: handles end by their destructors; the reclaiming of a crashed process's mappings by the kernel is left to `System`'s crashes.
- Demo.Drain: counters are unbounded integers; latency samples and the periodic report are not modelled.
- Demo.DemoPairInSequence: one process alone opens producer handles, as in the demo; a second producer that restarts at 0 is outside it.
- Geometry.CreatedBlock: a cache line of 2^30 bytes or more, whose control block would not fit the 32-bit `slotsOffset`, is outside the layouts considered; every other line size from 64 up is in.
- Calls.CallEnds: the caller itself stays alive; yielding takes no steps.
