# Verification of EuLLM's hard kernels

Dafny models of the parts of EuLLM where an error would be easy to make and hard
to see, with proofs of what they are for. `dafny verify dfyconfig.toml` checks
everything.

**The expert cache simulator** (`bench/moe_cache_sim/moe_cache_sim.cpp`). A fixed
number of slots is shared by all layers of a mixture-of-experts model; each plan
asks for a set of experts of one layer. The policies are classes over the source's
own arrays: `slot_of` and `key_of` (`Slots`), one doubly linked list
(`RecencyList`) or two (`PolicySlru`), plan counters, and an ordered set (`Opt`).
Each class method is proved to do what a function on values does (`Recency`,
`Slru`, `Opt`), and the theorems are about those: every plan is served
(`Recency.PlanServed`, `Slru.SegPlanServed`), in which order (`ServingOrder`), the
dates and the beginning of a pass that the scans go by are what they should be
(`Passes`), the scans pick what they are meant to (`Victims`), SLRU's two lists do
what a policy stated by ages alone does (`SlruAges`), stale-MRU is LRU below capacity (`BelowCapacity`), and Belady's rule
is a bound on every strategy (`Belady`, `NextUses`, `Bound`, `Simulator`). Trace
files are in `TraceFile`.

**The campaign scheduler** (`bench/campaign/campaign.py`, `devices.py`): aligned
blocks (`Devices`), EASY backfill (`Scheduler`), what the plan is, stated without its
computation (`Planning`), the points started in a row (`Reservation`), and the life
of a device (`DevicePool`) as a state machine over launches, endings, quarantines and
reaps, with where each device goes (`DevicePlaces`).

**The file-system queue** (`bench/campaign/fsqueue.py`): a step system of single
file operations by any number of jobs and operators, as the code is written
(`FsQueue`). `QueueSafety` proves what holds of every interleaving whose claims and
requeues are guarded, `QueueExact` that the guards are exact, `QueueTidy` and
`QueueAttempts` where a point is and how often it is claimed, `QueueAlone` that a
crash loses nothing when one works at a time, and `QueueFaults` shows runs of the
code that lose a point, or give it to two jobs. `QueueMethods` has the methods of a
job as runs of those steps.

**Smaller kernels**: the Mann-Whitney AUROC (`Auroc`), the fitted thresholds
(`Thresholds`), union-find with path halving (`SharedParagraphs`), the GGUF header
walk and in-place edit (`Gguf`, `GgufEdits`, `GgufFormat`), the block-cached remote
file (`RemoteFiles`), the even split and the shrinking requests of Reflex
(`Reflex`), and billing by day (`Budget`).

## What is assumed

- Cache: a trace names layers and experts of its model (`Workloads.Readable`); the
  source indexes its arrays with them unchecked. A plan with more distinct experts
  than slots is an error in the source, and the result `ok == false` here. The
  `uint32` generation of `distinct` wraps as in the source; those of `policy_opt`
  and `next_uses` have no such care there, so their traces have fewer than 2^32
  plans. Keys and plan counters are unbounded integers.
- The layers of a trace are 32-bit integers for `Passes.RunPass`, as they are in the
  source: the layer before the first plan is `INT32_MAX`.
- `pass_len`, the number of cached layers, is at least 1 for stale-LFU and lfu-pass.
  It is 0 for a trace whose header lists no layers. Every slot is stale then, and
  under arbitrary scores the class can take the plan's own slot
  (`Victims.PassOfNoneTakesOwn`; `ScanSafeExactly` says when it cannot). `run` makes
  the half-life 0 as well, so that a slot just used scores NaN, which is never the
  lower; NaN is not among the scores here. Stale-MRU needs no such bound.
- The decayed counts of stale-LFU and lfu-pass are arbitrary real scores, one
  function for each plan: what is proved holds for all of them.
- Scheduler: `now` is fixed during a decision and estimates are positive; times are
  reals. A point is launched only if it does not run already (it was claimed).
- Queue: the module comment of `fsqueue.py` says that rename being atomic is enough
  for several jobs to drain one queue. It is not: `QueueFaults` has eight runs of the
  code as written that lose a point, give it to two live jobs or measure it twice.
  What else it takes is `QueueSafety.Guarded`, and nothing more is assumed of any
  interleaving, crashes included. A claim finds no file of the point in running/
  (which its rename would overwrite), or an abandoned one, no job has still to remove
  its owner file of it (fsqueue.py:99-103 removes whatever owner file is there by
  then), and no operator the file it moved back. A requeue is of an abandoned point:
  one whose owner file names a job that has ended, or that has none, and that no job
  is about to write an owner file for or is putting back (the age tests of
  fsqueue.py:145-151 stand in for that; a rename does not refresh the time of the
  file). `QueueExact` proves these exact for every step and every run. What they are
  exact for is one live job at work on a point, which counts a job from its rename or
  its requeue until its owner file is removed, longer than it holds the point
  (`QueueSafety.AtMostOneHolder`). That a measured point is final takes that nobody
  stops between a write and the remove after it besides (`QueueTidy`).
  `QueueAlone.CrashLosesNothing` assumes nothing but that one job or operator works
  at a time.
- Queue steps: one file operation each, except that a file is written under another
  name and put in place in one step (no other name is ever read), and that loading a
  point and deciding where it goes is one. At most one operator at a time moves a
  given point back. The live jobs and the ages of claims are inputs.
- `auroc` and the thresholds are over reals, so rounding plays no part; scores,
  labels and correctness lists are of one length.
- A trace is written with counts that 32 bits hold (`TraceFile.Writable`).
- GGUF: keys are compared as bytes (the source decodes them as lossy UTF-8 first),
  and `usize` has 64 bits. A well-formed header is one whose entries are laid out
  as the format says in a file of at most `i64::MAX` bytes, but for one thing: the
  format lets arrays nest, and neither the source nor `GgufFormat.Value` does. A file
  with such an array is refused with its bytes unchanged (`GgufFormat.NestedRefused`).
- Remote file: the server gives the bytes asked for, or answers no range request at
  all; a range that starts below zero is not well formed (section 14.1.1 of RFC
  9110), and a server that ignores it (section 14.2) does not answer with a range.
- Reflex: tools may share a name, which `from_jsonl` (bench/reflexbench/rb_data.py)
  does not refuse; a question has its options by name.

## Model

| member | source | states |
|---|---|---|
| Slots.Table.constructor | bench/moe_cache_sim/moe_cache_sim.cpp:133-136 | no expert has a slot, no slot an expert |
| Slots.Table.FindDistinct | bench/moe_cache_sim/moe_cache_sim.cpp:139-154 | `uniq` becomes the distinct ids in order of first choice, marked in `seen` with a generation that survives its 32-bit wrap; it reports more distinct experts than slots, and neither index array changes |
| Slots.Table.SortUniq | bench/moe_cache_sim/moe_cache_sim.cpp:214 | `uniq` becomes its sorted form |
| Slots.Table.Assign | bench/moe_cache_sim/moe_cache_sim.cpp:157-163 | slot `s` gets the expert, its old one loses it, and the two index arrays stay inverse partial maps |
| Slots.SortedElems | bench/moe_cache_sim/moe_cache_sim.cpp:214 | sorting keeps the experts, without duplicates, in ascending order |
| Slots.AssignResident | bench/moe_cache_sim/moe_cache_sim.cpp:157-163 | giving a slot away takes out at most one expert, puts in exactly one, and keeps the slots injective |
| Slots.DistinctInOrder | bench/moe_cache_sim/moe_cache_sim.cpp:139-154 | of two distinct experts the one chosen first comes first |
| RecencyList.TouchLinks | bench/moe_cache_sim/moe_cache_sim.cpp:182-196 | the changes of `prev` and `next` in a touch are a move to the end of the list they stand for |
| RecencyList.LruList.constructor | bench/moe_cache_sim/moe_cache_sim.cpp:174-181 | the list of all slots in order |
| RecencyList.LruList.Touch | bench/moe_cache_sim/moe_cache_sim.cpp:182-196 | the linked list stays well formed, and stands for the old order with the slot moved last |
| Recency.VictimOutside | bench/moe_cache_sim/moe_cache_sim.cpp:355-360 | no rule takes a slot holding an expert this plan chose, whatever the scores, and an empty slot goes first |
| Recency.HitMid | bench/moe_cache_sim/moe_cache_sim.cpp:207-213 | after a hit the plan's slots are still exactly a suffix of the recency list |
| Recency.MissMid | bench/moe_cache_sim/moe_cache_sim.cpp:351-368 | a miss keeps the plan's slots a suffix of the list, keeps what the plan chose, brings in that expert and nothing else |
| Recency.PlanServed | bench/moe_cache_sim/moe_cache_sim.cpp:205-224 | every plan is served under LRU, stale-MRU, stale-LFU and lfu-pass, for any scores: all it chose is resident and fills the end of the list, hits are what was resident before, misses what was not, together the distinct experts |
| ServingOrder.PlanInOrder | bench/moe_cache_sim/moe_cache_sim.cpp:205-224 | after a plan the end of the recency list holds the experts it found resident, in the order in which it chose them, and then those it missed, the lowest first, whatever the rule and the scores |
| Passes.RunDated | bench/moe_cache_sim/moe_cache_sim.cpp:335-369 | after every plan of a run each slot is dated with the last plan that asked for its expert, whatever the rule |
| Passes.StaleExactly | bench/moe_cache_sim/moe_cache_sim.cpp:353-356 | so a slot is stale exactly when it is empty or none of the last `pass_len` plans asked for its expert |
| Passes.RunPass | bench/moe_cache_sim/moe_cache_sim.cpp:476-481 | at every plan of a run `pass_start` is the first plan of the pass: the layers rose at every plan since, and had not at it |
| PolicyLru.Policy.constructor | bench/moe_cache_sim/moe_cache_sim.cpp:202 | an empty, well-formed cache |
| PolicyLru.Policy.ServeHits | bench/moe_cache_sim/moe_cache_sim.cpp:207-213 | the loop over hits is the hits of the specification |
| PolicyLru.Policy.ServeMisses | bench/moe_cache_sim/moe_cache_sim.cpp:215-223 | the loop over misses is the misses of the specification |
| PolicyLru.Policy.Plan | bench/moe_cache_sim/moe_cache_sim.cpp:205-224 | the arrays and the linked list after a plan are those of the LRU specification; a plan with too many experts changes nothing in the cache and is reported |
| PolicyStale.Policy.constructor | bench/moe_cache_sim/moe_cache_sim.cpp:331-332 | an empty, well-formed cache under its rule |
| PolicyStale.Policy.ServeHits | bench/moe_cache_sim/moe_cache_sim.cpp:339-350 | the loop over hits is the hits of the specification, and `first` ends as the oldest slot of this plan's |
| PolicyStale.Policy.ScanPass | bench/moe_cache_sim/moe_cache_sim.cpp:508-520 | walking `prev` from the tail of the other layers is the specification's backward scan, with its window |
| PolicyStale.Policy.ScanHead | bench/moe_cache_sim/moe_cache_sim.cpp:521-539 | walking `next` from the head is the specification's scan of the stale slots, with both early exits |
| PolicyStale.Policy.FindVictim | bench/moe_cache_sim/moe_cache_sim.cpp:505-539 | the slot taken is the rule's victim: for stale-MRU (lines 355-360) the head when empty or stale, else the slot before this plan's first; for stale-LFU and lfu-pass what the scans find |
| PolicyStale.Policy.ServeMisses | bench/moe_cache_sim/moe_cache_sim.cpp:351-368 | the loop over misses is the misses of the specification, whatever the rule |
| PolicyStale.Policy.Plan | bench/moe_cache_sim/moe_cache_sim.cpp:476-548 | the class serves a plan as the specification of stale-MRU (lines 335-369), stale-LFU or lfu-pass does, for any scores |
| Victims.RunByUse | bench/moe_cache_sim/moe_cache_sim.cpp:325-369 | on every run of every rule the recency list is in order of last use, so the stale slots are its head |
| Victims.TakesOldest | bench/moe_cache_sim/moe_cache_sim.cpp:202-224 | LRU takes the slot used least recently of all |
| Victims.TakesNewest | bench/moe_cache_sim/moe_cache_sim.cpp:506-512 | with no slot empty or stale, stale-LFU takes the most recently used of those outside the plan, and so does lfu-pass when no other layer used any in this pass |
| Victims.TakesStaleOrNewest | bench/moe_cache_sim/moe_cache_sim.cpp:316-324 | stale-MRU takes the least recently used stale slot if any slot at all is stale, else the most recently used of the other layers |
| Victims.TakesLowestStale | bench/moe_cache_sim/moe_cache_sim.cpp:443-448 | with stale slots and none empty, the one taken has the lowest score of all the stale slots (of the window), the least recent of equals |
| Victims.TakesLowestOfPass | bench/moe_cache_sim/moe_cache_sim.cpp:449-452 | in a full pass lfu-pass takes the lowest score of all slots other layers used in this pass (of the window), the most recent of equals |
| Victims.ScanSafeExactly | bench/moe_cache_sim/moe_cache_sim.cpp:505-539 | stale-LFU and lfu-pass take none of the plan's slots whatever the scores exactly when a pass has at least one plan, or nothing was served yet, or a slot is empty, or the window ends before the plan's slots |
| Victims.PassOfNoneTakesOwn | bench/moe_cache_sim/moe_cache_sim.cpp:521-539 | with `pass_len` 0 and arbitrary scores the class can take the slot just used by the plan |
| Slru.MovedPartition | bench/moe_cache_sim/moe_cache_sim.cpp:250-275 | a move keeps the two lists a partition of the slots |
| Slru.TouchedValid | bench/moe_cache_sim/moe_cache_sim.cpp:276-281 | after a touch the protected list holds at most half the slots |
| SlruAges.UsedIsProtected | bench/moe_cache_sim/moe_cache_sim.cpp:276-281 | with two slots or more a slot just used is the most recent of those protected; when these are then more than half, the oldest of those protected before goes back, the most recent on probation; all others stay as they were |
| SlruAges.TouchShows | bench/moe_cache_sim/moe_cache_sim.cpp:276-281 | the touch of the two lists is that use: both stay in order of when a slot last joined or moved up in its list |
| SlruAges.VictimShows | bench/moe_cache_sim/moe_cache_sim.cpp:282-292 | the slot taken is the oldest on probation outside the plan, or of the protected ones when probation has none to spare |
| SlruAges.RunShows | bench/moe_cache_sim/moe_cache_sim.cpp:233-313 | so over every run: the lists and the experts are those of the policy stated by ages alone, without lists |
| Slru.SpareLeft | bench/moe_cache_sim/moe_cache_sim.cpp:282-292 | a miss always finds a slot outside the layer's choices: `victim` never throws |
| Slru.SegMissMid | bench/moe_cache_sim/moe_cache_sim.cpp:304-312 | a miss evicts nothing the layer chose and brings in its expert |
| Slru.SegPlanServed | bench/moe_cache_sim/moe_cache_sim.cpp:294-313 | every SLRU plan is served: all it chose is resident after it, hits and misses are what was and was not resident, the lists still partition the slots within the bound |
| PolicySlru.AppendTwo | bench/moe_cache_sim/moe_cache_sim.cpp:265-274 | the changes of `prev` and `next` in the second half of `move` leave two well-formed linked lists |
| PolicySlru.UnlinkTwo | bench/moe_cache_sim/moe_cache_sim.cpp:255-264 | those of the first half leave two well-formed lists without the slot |
| PolicySlru.Policy.Move | bench/moe_cache_sim/moe_cache_sim.cpp:250-275 | the link arrays, heads, tails, flags and `n_protected` follow the specified move, the early return included |
| PolicySlru.Policy.Touch | bench/moe_cache_sim/moe_cache_sim.cpp:276-281 | a touch is the specified one, whose effect `SlruAges.TouchShows` and `SlruAges.UsedIsProtected` state |
| PolicySlru.Policy.FindVictim | bench/moe_cache_sim/moe_cache_sim.cpp:282-292 | the scan of probation, then of the protected list, ends at the specified victim (`SlruAges.VictimShows`), never one the layer chose |
| PolicySlru.Policy.Plan | bench/moe_cache_sim/moe_cache_sim.cpp:294-313 | the class serves a plan as the SLRU specification does; `n_protected` is the protected list's length |
| Belady.LeadStep | bench/moe_cache_sim/moe_cache_sim.cpp:551-552 | over one plan, for any finite threshold, the misses any strategy is behind keep covering its lead in experts used again by then |
| Belady.LeadBounded | bench/moe_cache_sim/moe_cache_sim.cpp:551-552 | so they do over every prefix of a run |
| Belady.FurthestIsOptimal | bench/moe_cache_sim/moe_cache_sim.cpp:551-552 | a run that always evicts the furthest next use misses no more than any sequence of contents on demand in the same slots |
| NextUses.ComputeNextUses | bench/moe_cache_sim/moe_cache_sim.cpp:604-624 | for each plan, each distinct expert in order of choice, with exactly the next plan that asks for the pair, `SIZE_MAX` when none does |
| NextUses.FillRow | bench/moe_cache_sim/moe_cache_sim.cpp:612-618 | one plan's row: its distinct experts with the next uses at hand |
| NextUses.MarkRow | bench/moe_cache_sim/moe_cache_sim.cpp:619-621 | afterwards the pairs of the plan are next used by it |
| Opt.PlanTakesFurthest | bench/moe_cache_sim/moe_cache_sim.cpp:569-601 | one plan of `policy_opt` is one step of a furthest-next-use run: what it evicts is never next used before what it keeps, and its misses are what was not resident |
| Opt.PolicyOpt.FirstOutside | bench/moe_cache_sim/moe_cache_sim.cpp:590-596 | the first of the ordered set outside the plan |
| Opt.PolicyOpt.Plan | bench/moe_cache_sim/moe_cache_sim.cpp:569-601 | the class serves a plan as specified, the ordered set being exactly the slots with their next uses |
| Bound.BeladyIsBound | bench/moe_cache_sim/moe_cache_sim.cpp:551-601 | over every trace whose plans fit, `policy_opt` has no more misses than any strategy on demand in the same slots |
| Bound.BeladyBeatsLists | bench/moe_cache_sim/moe_cache_sim.cpp:747-758 | in particular than LRU, stale-MRU, stale-LFU and lfu-pass, for any scores |
| Bound.BeladyBeatsSlru | bench/moe_cache_sim/moe_cache_sim.cpp:749 | and than SLRU |
| ListReplay.ListRuns | bench/moe_cache_sim/moe_cache_sim.cpp:766-769 | LRU, stale-MRU, stale-LFU and lfu-pass are runs on demand whose counted misses are their misses |
| SegReplay.SegRuns | bench/moe_cache_sim/moe_cache_sim.cpp:766-769 | so is SLRU |
| OptReplay.OptRuns | bench/moe_cache_sim/moe_cache_sim.cpp:766-769 | so is Belady's, and each step takes the furthest |
| ReplayLru.Replay | bench/moe_cache_sim/moe_cache_sim.cpp:747-769 | LRU's hits and misses over a trace are those of the specified run; it fails exactly when a plan does not fit |
| ReplayStale.Replay | bench/moe_cache_sim/moe_cache_sim.cpp:750-769 | the same of stale-MRU, stale-LFU and lfu-pass |
| ReplaySlru.Replay | bench/moe_cache_sim/moe_cache_sim.cpp:749-769 | the same of SLRU |
| ReplayOpt.Replay | bench/moe_cache_sim/moe_cache_sim.cpp:755-769 | the same of Belady's policy with the next uses computed from the trace |
| Simulator.Run | bench/moe_cache_sim/moe_cache_sim.cpp:733-797 | each row is that of its policy over the whole trace, every one serves all that was asked for, and none has fewer misses than the bound's; none exactly when a plan does not fit |
| BelowCapacity.HeadIsStale | bench/moe_cache_sim/moe_cache_sim.cpp:316-324 | below capacity a miss finds the head of the list empty or stale |
| BelowCapacity.MissAgrees | bench/moe_cache_sim/moe_cache_sim.cpp:355-360 | so stale-MRU's victim is LRU's |
| BelowCapacity.StaleMruIsLru | bench/moe_cache_sim/moe_cache_sim.cpp:316-324 | when every `pass_len` plans in a row want at most `n_slots` distinct pairs, stale-MRU passes through the same lists and slots as LRU for the whole run |
| BelowCapacity.SameServing | bench/moe_cache_sim/moe_cache_sim.cpp:316-324 | with the same hits and misses at every plan |
| BelowCapacity.RecentlyServedHits | bench/moe_cache_sim/moe_cache_sim.cpp:316-324 | and neither misses a pair served within the last `pass_len` plans |
| TraceFile.WriteTrace | bench/moe_cache_sim/moe_cache_sim.cpp:70-87 | the bytes of the trace, as `HeadLayout`, `RecordLayout` and `WordLayout` lay them out |
| TraceFile.HeadLayout | bench/moe_cache_sim/moe_cache_sim.cpp:70-81 | a file is the magic number, version 1, the five numbers of the header in order, and the layers |
| TraceFile.RecordLayout | bench/moe_cache_sim/moe_cache_sim.cpp:82-86 | then for each plan its layer, how many experts it chose, and these |
| TraceFile.WordLayout | bench/moe_cache_sim/moe_cache_sim.cpp:70-86 | every word is in two's complement, byte `i` of it being digit `i` to base 256 |
| TraceFile.ReadPlans | bench/moe_cache_sim/moe_cache_sim.cpp:108-116 | the reading loop gives what the parse of the words gives, a negative length an error |
| TraceFile.ReadTrace | bench/moe_cache_sim/moe_cache_sim.cpp:89-119 | what is read is the parse of the file's words, which `ReadExactly` and `ReadsMagic` characterise |
| TraceFile.ReadExactly | bench/moe_cache_sim/moe_cache_sim.cpp:90-120 | the words of any file are read as a trace exactly when they are that trace's own, followed by no whole record nor the beginning of one of negative length |
| TraceFile.ReadsMagic | bench/moe_cache_sim/moe_cache_sim.cpp:96-100 | whatever is read begins with the bytes 4d 4f 45 43 |
| TraceFile.RoundTrip | bench/moe_cache_sim/moe_cache_sim.cpp:70-119 | reading undoes writing, for every trace |
| TraceFile.CutTraceReads | bench/moe_cache_sim/moe_cache_sim.cpp:108-116 | of a file cut anywhere after its header exactly the plans whose records lie wholly inside are read |
| TraceFile.CutHeadRefused | bench/moe_cache_sim/moe_cache_sim.cpp:96-107 | a file cut inside its header is refused |
| Devices.BlockAt | bench/campaign/devices.py:66-74 | every block is `width` devices from a multiple of `width` in the node's list |
| Devices.MoreFree | bench/campaign/devices.py:66-74 | a block found stays found when more devices are free |
| Devices.GroupIsBlock | bench/campaign/devices.py:66-74 | the first free aligned block is one, and there is none exactly when no aligned block is free |
| Devices.GroupIsFirst | bench/campaign/devices.py:66-74 | and no block before it in the node's list is free |
| Devices.BlockCount | bench/campaign/devices.py:70 | the aligned blocks are as many as whole ones fit |
| Devices.FindGroup | bench/campaign/devices.py:66-74 | the search by steps of `width` gives the first aligned block all of whose devices are free |
| Scheduler.WhenFreeIs | bench/campaign/campaign.py:318-334 | `when_free` is the earliest end by which an aligned block is free, the latest end when there never is one |
| Scheduler.WhenFreeUnique | bench/campaign/campaign.py:318-334 | and the only such time |
| Scheduler.FindWhenFree | bench/campaign/campaign.py:318-334 | the loop over the running points in order of their ends computes that time |
| Scheduler.PlanIsGood | bench/campaign/campaign.py:336-357 | a started point fits the node, the time left and, past the first blocked point, that point's reservation, and is on a free aligned block |
| Scheduler.PlanNext | bench/campaign/campaign.py:336-357 | the loop of `plan_next` gives the specified plan, of which `Planning.PlanExactly` says what it is |
| Planning.PlanExactly | bench/campaign/campaign.py:336-357 | the plan, stated without its computation: the first point of the list that may start, on the first free aligned block of its width, for as long as it may; nothing exactly when no point may. A point may start when the node can ever fit it, has a block for it now, and some duration it allows ends by the deadline less the margin and, past the first waiting point, by that one's `when_free` |
| Planning.DurationExactly | bench/campaign/campaign.py:306-313 | a point has a duration within a limit exactly when it can end within it: a workload for some time of at least its minimum and a minute and at most its maximum, after the loading allowance; another for its estimate |
| Planning.DurationIsLongest | bench/campaign/campaign.py:306-313 | and it is the longest such, in whole seconds |
| Planning.ExpectedToEnd | bench/campaign/campaign.py:324-327 | a running point is expected to end at its estimate, or once that is past a quarter of its length and at least 300 seconds from now |
| Scheduler.StartKeepsReservation | bench/campaign/campaign.py:318-357 | starting it leaves `when_free` of the blocked point no later than before |
| Scheduler.BackfillKeepsReservation | bench/campaign/campaign.py:306-357 | for every node and list of points with positive estimates, backfill never delays the reservation, and the started point is expected to end before the deadline less the margin |
| Reservation.PlanPast | bench/campaign/campaign.py:345-357 | a plan that goes past a waiting point goes past the first one that fits the node and the time left |
| Reservation.StartsKeepReservation | bench/campaign/campaign.py:619-636 | over any number of plans at one time, whichever claims are won, the node stays kept for the same point, and the time its block will be free never gets later |
| Reservation.FirstBlockedStays | bench/campaign/campaign.py:619-636 | so from the first plan that goes past a point on, that point is the first blocked one of every later plan, and its `when_free` is no later than it was then |
| Scheduler.EndsWithin | bench/campaign/campaign.py:306-316 | a point whose duration fits a limit is expected to end after now and within it |
| DevicePool.LaunchConserves | bench/campaign/campaign.py:378-380 | a launch moves a free block to a running point |
| DevicePool.QuarantineConserves | bench/campaign/campaign.py:472-479 | setting devices aside moves them from free to quarantine |
| DevicePool.ReapConserves | bench/campaign/campaign.py:501-552 | a whole `reap` keeps every device in exactly one place and never brings a lost one back |
| DevicePool.SettleAllRemoves | bench/campaign/campaign.py:541-552 | `reap` takes exactly the finished points out of those running |
| DevicePlaces.SettledBlock | bench/campaign/campaign.py:541-552 | a finished point's block is free when it left no server behind, and otherwise drains under exactly the servers it left |
| DevicePlaces.ReapExactly | bench/campaign/campaign.py:501-552 | where a reap leaves every device, straggler and point: free again are just the quarantined ones at 2048 MiB or less, those whose servers have all exited, and the blocks of points that left none; lost just those set aside for longer than `give_up_s` and still not clean; draining just those with a server still running and the blocks of points that left one |
| DevicePlaces.SetAsideExactly | bench/campaign/campaign.py:472-479 | what is set aside leaves the free devices, with the time noted, and no other device's changes |
| DevicePlaces.HeldUntilExited | bench/campaign/campaign.py:532-552 | on every run a device of a point that left servers behind is not free before a reap has found all of them exited |
| DevicePool.StepConserves | bench/campaign/campaign.py:361-552 | every event keeps every device in exactly one of free, a running point's block, draining, quarantined, lost |
| DevicePool.RunsConserve | bench/campaign/campaign.py:361-552 | so does every run of launches, endings, quarantines and reaps |
| DevicePool.LostForGood | bench/campaign/campaign.py:519-528 | on every run a lost device never comes back |
| DevicePool.BlocksDisjoint | bench/campaign/campaign.py:378-380 | the blocks of running points are disjoint, and each is an aligned block of the node's list |
| DevicePool.BlocksAligned | bench/campaign/campaign.py:378-380 | at every state of every run each running point's block starts at a multiple of its width in the node's list |
| DevicePool.Runner.LaunchPoint | bench/campaign/campaign.py:298-380 | the fields after a launch are the specified pool |
| DevicePool.Runner.FinishPoint | bench/campaign/campaign.py:450-452 | a point that ended is noted with what it left draining |
| DevicePool.Runner.SetDevicesAside | bench/campaign/campaign.py:472-479 | the fields after a quarantine are the specified pool |
| DevicePool.Runner.DrainStragglers | bench/campaign/campaign.py:532-540 | the loop frees exactly the devices of stragglers that exited |
| DevicePool.Runner.SettlePoint | bench/campaign/campaign.py:541-552 | a finished point leaves those running, and its block goes where `DevicePlaces.SettledBlock` says |
| DevicePool.Runner.ReapAll | bench/campaign/campaign.py:501-552 | the fields after a reap are the specified pool, device by device what `DevicePlaces.ReapExactly` says |
| QueueSafety.RenameKeeps | bench/campaign/fsqueue.py:88-95 | a claim keeps the invariant when it finds no file in running/, or one left by a job that ended, with no owner file and no moved file still to be removed, whatever others are in the middle of |
| QueueSafety.BusyExactly | bench/campaign/fsqueue.py:88-157 | a live job is at work on a point exactly when its file in running/ is not abandoned (its owner has not ended, or a job is between its rename and its owner file, or one is putting it back) or an owner file of it is still to be removed |
| QueueSafety.WriteOutKeeps | bench/campaign/fsqueue.py:97-98 | so does writing a point where it goes, its file in running/ still there |
| QueueSafety.DropKeeps | bench/campaign/fsqueue.py:99-103 | so does removing its running file |
| QueueSafety.DisownKeeps | bench/campaign/fsqueue.py:99-103 | so does removing its owner file |
| QueueSafety.RequeueKeeps | bench/campaign/fsqueue.py:135-157 | so does beginning to requeue a point that looks stale while nobody is claiming it or putting it back |
| QueueSafety.PutBackKeeps | bench/campaign/fsqueue.py:159-186 | so does the write to todo/ of `unblock` or `retry`, the file in blocked/ or failed/ still there |
| QueueSafety.TakeAwayKeeps | bench/campaign/fsqueue.py:159-186 | so does the remove that follows it |
| QueueSafety.RunKeeps | bench/campaign/fsqueue.py:69-186 | the invariant holds after every interleaving of any number of jobs and operators, returns to todo/, requeues, `unblock`, `retry` and `add` being as many steps as they have file operations, wherever jobs stop |
| QueueSafety.AtMostOneHolder | bench/campaign/fsqueue.py:88-95 | in every guarded interleaving at most one live job holds a point |
| QueueSafety.NoPointLost | bench/campaign/fsqueue.py:97-103 | and every point ever added is in some directory, wherever jobs and operators stop |
| QueueSafety.LoadFindsFile | bench/campaign/fsqueue.py:76-95 | a job that loads a point it claimed finds its file |
| QueueSafety.WaitingHasAttemptsLeft | bench/campaign/fsqueue.py:118-121 | a point in todo, running or blocked has failed fewer than `MAX_ATTEMPTS` times |
| QueueSafety.PutThereByItsClaimer | bench/campaign/fsqueue.py:109-123 | a point that appears in done, failed or blocked was put there by the job that claimed it last, which still holds it |
| QueueExact.RenameExactly | bench/campaign/fsqueue.py:88-95 | a claim leaves one live job at its point exactly when it finds no file in running/, or an abandoned one, and no owner file still to be removed |
| QueueExact.RenameKeepsExactly | bench/campaign/fsqueue.py:88-95 | a claim keeps the whole invariant exactly when, besides, no operator has still to remove the file it moved back |
| QueueExact.RequeueExactly | bench/campaign/fsqueue.py:135-157 | a requeue leaves one live job at its point exactly when the point was abandoned |
| QueueExact.StepExactly | bench/campaign/fsqueue.py:69-186 | from any sound state, whatever jobs have ended, every step keeps the invariant exactly when it is guarded |
| QueueExact.RunExactly | bench/campaign/fsqueue.py:69-186 | over every run at all the invariant holds at every state exactly when every claim and every requeue was guarded |
| QueueExact.RunApartExactly | bench/campaign/fsqueue.py:69-186 | over every run at all no two live jobs were ever at work on one point, and no claim came before an operator's remove, exactly when every claim and every requeue was guarded |
| QueueTidy.DoneIsFinal | bench/campaign/fsqueue.py:109-123 | in a guarded run in which nobody stops between a write and the remove after it, points are added once and moved back while they do not run, a measured point stays in done/, is never in todo/ again, and so is never claimed again |
| QueueTidy.StoppedBeforeRemove | bench/campaign/fsqueue.py:97-103 | a job that ends between its write to done/ and the remove leaves the point in running/ too, where a requeue may take it |
| QueueTidy.CrashTidyExactly | bench/campaign/fsqueue.py:97-103 | a job that ends leaves every point in one place exactly when it was not between a write and the remove after it |
| QueueTidy.OneDirectory | bench/campaign/fsqueue.py:63-123 | in such runs a point is in one directory, or in two while its holder or the operator has still to remove it from the first |
| QueueAlone.CrashLosesNothing | bench/campaign/fsqueue.py:69-186 | one job or operator at a time, stopped between any two file operations, those of a return to todo/, of `requeue_stale`, `unblock`, `retry` and `add` included, leaves every point in some directory |
| QueueAttempts.ClaimsBounded | bench/campaign/fsqueue.py:109-123 | a guarded drain without releases, requeues, retries, unblocks or additions claims a point at most `MAX_ATTEMPTS` times: each claim uses up one of what is left |
| QueueFaults.ReturnInTwoStepsLosesPoint | bench/campaign/fsqueue.py:97-103 | a run in which a claim lands between the write and the remove of a return, and the point is lost |
| QueueFaults.FreshClaimSplits | bench/campaign/fsqueue.py:135-157 | a run in which a fresh claim, with no owner file yet, looks abandoned, and two live jobs hold the point |
| QueueFaults.LateRemoveSplitsClaim | bench/campaign/fsqueue.py:99-103 | a run without a crash in which the second remove of a return deletes the next claimer's owner file, the point then looks orphaned, and two live jobs hold it |
| QueueFaults.StaleOwnerFileSplitsClaim | bench/campaign/fsqueue.py:135-157 | a run in which an owner file left by a crash makes a fresh claim look abandoned, and two live jobs hold the point |
| QueueFaults.RetryWhileLeavingLosesPoint | bench/campaign/fsqueue.py:168-186 | a run in which a failed point is retried while its job is still leaving it there, claimed, and lost |
| QueueFaults.RetryRemovesNewFailure | bench/campaign/fsqueue.py:168-186 | a run in which a retried point is claimed and fails again before the operator removes the old file, which removes the new one: it is lost |
| QueueFaults.DoneClaimedAgain | bench/campaign/fsqueue.py:135-157 | a run, every step of it guarded, in which a point in done/ is claimed again, its job having stopped between the write and the remove |
| QueueFaults.TwoRequeuersLosePoint | bench/campaign/fsqueue.py:135-157 | a run in which two jobs that start together both requeue a point an ended job left, a third claims it between their removes, and it is lost |
| QueueMethods.Queue.Where | bench/campaign/fsqueue.py:63-67 | the first state that has the point, none exactly when no state has it |
| QueueMethods.Queue.Add | bench/campaign/fsqueue.py:69-74 | queues a point exactly when no state has it |
| QueueMethods.Queue.Claim | bench/campaign/fsqueue.py:88-95 | a claim is the rename, the owner file and the load; none exactly when the point is not in todo |
| QueueMethods.Queue.LeaveRunning | bench/campaign/fsqueue.py:97-103 | the point's file goes where it should, its running and owner files are gone, all else as it was |
| QueueMethods.Queue.Release | bench/campaign/fsqueue.py:105-107 | the point is back in todo with its attempts |
| QueueMethods.Queue.Finish | bench/campaign/fsqueue.py:109-123 | where the point ends and its attempts, a failure going back to todo exactly while it may be tried again |
| QueueMethods.Queue.RequeueStale | bench/campaign/fsqueue.py:135-157 | of the points in running/, with the live jobs known and an owner file those whose owner is none of them, otherwise those that are old, and no others, are back in todo/ with their attempts and no owner file; every other point keeps its files, attempts and owner |
| QueueMethods.LiveAreKept | bench/campaign/fsqueue.py:135-157 | with the live jobs those that have not ended, no live job's owned point is released, and every ended one's is |
| QueueMethods.Queue.UnblockAll | bench/campaign/fsqueue.py:159-166 | exactly the blocked points are back in todo with their attempts |
| QueueMethods.Queue.RetryAll | bench/campaign/fsqueue.py:168-186 | exactly the chosen failed points are back in todo, as if never tried |
| Auroc.TiedWorth | bench/reflexbench/rg_metrics.py:36-41 | the rank averaged over a run of ties counts the lower scores and half the ties |
| Auroc.Ranks | bench/reflexbench/rg_metrics.py:34-41 | the two loops give every score its averaged rank, from any sorted list |
| Auroc.WinsOfBoth | bench/reflexbench/rg_metrics.py:27-30 | between them two classes win every pair, ties counting half each |
| Auroc.WorthOfClasses | bench/reflexbench/rg_metrics.py:30-34 | what a score is worth over all scores splits over the two classes |
| Auroc.ClassIs | bench/reflexbench/rg_metrics.py:30-31 | a class has each score as often as a case of it has that score |
| Auroc.TotalIsWins | bench/reflexbench/rg_metrics.py:42 | the ranks of a class add up to what it wins against both classes |
| Auroc.Compute | bench/reflexbench/rg_metrics.py:27-43 | the rank-sum formula is the share of (positive, negative) pairs the positive wins, ties counting half; none exactly when a class is empty |
| Auroc.ShareOfPairs | bench/reflexbench/rg_metrics.py:27-30 | it lies between 0 and 1, is complemented by swapping the classes, and is 1 exactly when every positive scores above every negative |
| Thresholds.TriedLike | bench/reflexbench/ab_metrics.py:59-60 | whatever any threshold routes, one of those tried routes too |
| Thresholds.FitRouter | bench/reflexbench/ab_metrics.py:49-64 | the threshold found routes the most items small of all thresholds, real or infinite, that lose at most `max_loss` points; none exactly when every threshold loses more |
| Thresholds.RightIs | bench/reflexbench/ab_metrics.py:60-61 | the answers right are the small model's where it is routed to it and the large one's elsewhere, counted |
| Thresholds.WithinIs | bench/reflexbench/ab_metrics.py:62 | the loss is the large model's share of right answers less the routing's, in points |
| Thresholds.CutLike | bench/reflexbench/rg_metrics.py:102-103 | whatever any real threshold decides, one of the cuts decides too |
| Thresholds.GateIsBest | bench/reflexbench/rg_metrics.py:97-108 | the gate's threshold has the best balanced accuracy of all real thresholds; none exactly when a class has no case |
| Thresholds.GateIsLowest | bench/reflexbench/rg_metrics.py:104-107 | of thresholds as good it is the lowest: a lower one that decides otherwise is worse |
| Thresholds.JudgeExactly | bench/reflexbench/rg_metrics.py:81-94 | each number is the share of cases it stands for, and the balanced one the mean of the shares of the two classes predicted right; none exactly when a class has no case |
| SharedParagraphs.HalvingKeeps | bench/reflexbench/rg_data.py:70-74 | replacing a parent by the grandparent keeps every root, and moves strictly up |
| SharedParagraphs.Links.Find | bench/reflexbench/rg_data.py:70-74 | `find` ends at the root of a node, adds a new node as its own root, and leaves every node's root as it was |
| SharedParagraphs.RootIs | bench/reflexbench/rg_data.py:70-74 | following the parents ends in exactly one node, the root |
| SharedParagraphs.Links.Tie | bench/reflexbench/rg_data.py:79 | the paragraph's component joins the question's, all other roots stay |
| SharedParagraphs.SameRootIsJoined | bench/reflexbench/rg_data.py:76-79 | two nodes have one root exactly when a chain of ties joins them |
| SharedParagraphs.TiesAre | bench/reflexbench/rg_data.py:76-79 | the ties are those of the supporting paragraphs |
| SharedParagraphs.NameAll | bench/reflexbench/rg_data.py:80-82 | a root is named after the smallest id it has |
| SharedParagraphs.SameDocumentIsJoined | bench/reflexbench/rg_data.py:58-68 | two questions have one document exactly when a chain of shared supporting paragraphs joins them |
| SharedParagraphs.Share | bench/reflexbench/rg_data.py:58-83 | each question's document is the smallest id that such a chain joins to it, and equal documents are exactly joined questions |
| Gguf.File.ReadString | engine/src/gguf_patch.rs:281-301 | a length checked against what is left, then that many bytes |
| Bytes.PutAt | engine/src/gguf_patch.rs:244 | byte `i` of a number is its digit `i` to base 256: the lowest first |
| Bytes.GetAt | engine/src/gguf_patch.rs:253-263 | and digit `i` of the number that bytes stand for is the byte `i` |
| Gguf.File.Skip | engine/src/gguf_patch.rs:318-327 | a skip past `i64::MAX`, or to a position past it, is refused; past the end it is not |
| Gguf.File.SkipValue | engine/src/gguf_patch.rs:330-359 | the position after a value, or its error, is the specified one |
| Gguf.File.SeekEntry | engine/src/gguf_patch.rs:231-250 | the loop over entries stops where the specified walk does |
| Gguf.File.Overwrite | engine/src/gguf_patch.rs:243-245 | only the four bytes at the position change |
| Gguf.File.SetU32 | engine/src/gguf_patch.rs:217-251 | the bytes are as they were on an error or without the key, else only the value found is set and the one it held given back |
| Gguf.FoundInside | engine/src/gguf_patch.rs:231-249 | a value found lies inside the file, past the entry it belongs to |
| GgufEdits.FindStays | engine/src/gguf_patch.rs:217-251 | where a value is found depends on nothing from the value on |
| GgufEdits.EditIsLocal | engine/src/gguf_patch.rs:204-206 | an edit keeps the file's length and every byte outside the four of the value |
| GgufEdits.EditUndone | engine/src/gguf_patch.rs:204-211 | on any file at all, well formed or not, setting the value given back undoes the edit, and reads back the value set |
| GgufFormat.ValueEndThere | engine/src/gguf_patch.rs:330-359 | the skip over a well-formed value, of any mix of scalars, strings and arrays of them, ends where it ends |
| GgufFormat.SizesOfTypes | engine/src/gguf_patch.rs:51-63 | the sizes of the format's scalar types by number, and no others |
| GgufFormat.ArrayEndsExactly | engine/src/gguf_patch.rs:340-353 | of any array, where it ends, or which of the four errors it is refused with |
| GgufFormat.StringsEndExactly | engine/src/gguf_patch.rs:336-348 | strings, which may reach past the end of the file, are skipped to where each length after the other leads |
| GgufFormat.BeginsWithMagic | engine/src/gguf_patch.rs:222-227 | a file with a well-formed header begins with the bytes 47 47 55 46 |
| GgufFormat.FoundMagic | engine/src/gguf_patch.rs:222-227 | and so does any file in which the edit meets no error |
| GgufFormat.FoundThere | engine/src/gguf_patch.rs:231-250 | the walk over entries that begin with well-formed ones finds the first of these with the key, or goes on from their end |
| GgufFormat.EditSetsEntry | engine/src/gguf_patch.rs:204-251 | on every well-formed header the edit sets the first entry with the key and no other, and gives back its old value; without the key or with another type nothing changes |
| GgufFormat.EditedBytes | engine/src/gguf_patch.rs:241-246 | the bytes written are the digits of the value, the lowest first, and the four there before those of the value given back |
| GgufFormat.NestedRefused | engine/src/gguf_patch.rs:330-359 | an entry with an array of arrays, which the format allows, stops the walk: without the key before it the edit fails with the bytes unchanged |
| GgufFormat.OneHeader | engine/src/gguf_patch.rs:217-251 | a file begins with one header only, so re-parsing an edited one gives the same entries with that one updated |
| Bytes.GetPut | engine/src/gguf_patch.rs:253-263 | decoding undoes encoding, for every value that fits |
| Bytes.PutGet | engine/src/gguf_patch.rs:253-263 | encoding undoes decoding, for every byte string |
| RemoteFiles.RemoteFile.Seek | bench/reflexbench/ab_data.py:185-187 | the position is set from the start, the position or the end |
| RemoteFiles.RemoteFile.Block | bench/reflexbench/ab_data.py:189-198 | the block is the file's, and only it is added to the cache |
| RemoteFiles.RemoteFile.Read | bench/reflexbench/ab_data.py:200-210 | the bytes are those of the file from the position up to the size asked or the end, the position advances by as many, it terminates, the cache holds true blocks, and no block is fetched that the bytes do not touch; without ranges, or from a position below zero, it fails with nothing changed |
| RemoteFiles.ReadsThese | bench/reflexbench/ab_data.py:200-210 | byte `i` of what is read is byte `p + i` of the file |
| RemoteFiles.TouchesIs | bench/reflexbench/ab_data.py:204-206 | a block is touched exactly when a byte of the range lies in it |
| RemoteFiles.ReadsJoin | bench/reflexbench/ab_data.py:200-210 | two reads give what one of both sizes gives |
| Reflex.Split | bench/reflexbench/rb_methods.py:326-337 | the parts of the specification: the tools in order, in the fewest parts of at most `size`, sizes differing by at most one, the larger first |
| Reflex.AtLeastTwo | bench/reflexbench/rb_methods.py:203-207 | without "none" no part has fewer than two tools |
| Reflex.RequestIsGood | bench/reflexbench/rb_methods.py:203-231 | every question has at most 255 options, and at least 2 exactly when "none" is offered or its tools are not all of one name |
| Reflex.TwoOptionsExactly | bench/reflexbench/rb_methods.py:179-267 | whatever the replies, every question of a ranking has 2 to 255 options exactly when "none" is offered, or there is one tool and nothing to decide, or in every request that can come to be sent no question's tools are all of one name |
| Reflex.DistinctNamesVary | bench/reflexbench/rb_methods.py:203-207 | so do two or more tools of different names |
| Reflex.NotOnlyDistinct | bench/reflexbench/rb_methods.py:216-231 | and some in which names repeat |
| Reflex.OneNameOneOption | bench/reflexbench/rb_methods.py:216-257 | without "none", the first request for three tools of one name is a question of one option, whatever the replies |
| Reflex.Shrinks | bench/reflexbench/rb_methods.py:261-263 | questions that can still shrink have done so fewer than seven times |
| Reflex.SmallerIs | bench/reflexbench/rb_methods.py:261-263 | the next size is half of what a question held, rounded down, and never below the smallest |
| Reflex.LargestIs | bench/reflexbench/rb_methods.py:203-207 | a question of the largest size with distinct names has exactly 255 options |
| Reflex.Ask | bench/reflexbench/rb_methods.py:242-266 | the retry loop ends for any replies, having sent the specified requests |
| Reflex.Rank | bench/reflexbench/rb_methods.py:233-267 | ranking sends the specified requests, at most eight, all but the last too long, each an even split of the expected size; its outcome is the last one's reply, and it is refused only once the smallest questions were too long, or the next would have been more than 64 |
| Budget.SpentBetween | bench/campaign/budget.py:94-105 | the loop adds up each job's rate over its part of the window |
| Budget.OverlapIs | bench/campaign/budget.py:99-103 | a job's part of a window is as long as the times in it at which the job ran |
| Budget.HourCostsRate | bench/campaign/budget.py:104 | an hour of a job costs its rate |
| Budget.SpentJoins | bench/campaign/budget.py:97-105 | what two lists of jobs billed is billed by the one after the other |
| Budget.OverlapSplits | bench/campaign/budget.py:100-103 | a run's parts in two windows end to end are its part in both, a running job's included |
| Budget.SpentSplits | bench/campaign/budget.py:94-105 | so is what all jobs billed |
| Budget.PerDay | bench/campaign/budget.py:108-116 | each day's amount, and the days together exactly what was billed from the first midnight to now, for all jobs |

## Left out

- `policy_lfu`: its victims are those of an ordered set by decayed count, as Belady's are by next use; it adds no harder property.
- The decay of counts (`exp`, `log`) and all floating-point rounding: scores are arbitrary, rates and times are reals.
- `synth`, printing, CSV output and the command line of the simulator.
- C++ inheritance: the members of the base class are a field (`Slots.Table`) of each policy.
- `set_aside`, the notes, labels and contents of points, and `todo`, `ids`, `counts` of the queue; the prefix, label and note filters of `retry` are a set of chosen points.
- QueueMethods.Queue.RequeueStale: takes which jobs are live and which claims and unowned files are old as inputs, and is called by a job that is at no point.
- QueueMethods.Queue.Claim: two jobs' calls do not interleave inside a method of this class; every interleaving of their steps is in `FsQueue`.
- QueueMethods.Queue.UnblockAll: no other operator is moving points back meanwhile; the same of `QueueMethods.Queue.RetryAll`.
- Victims.PassOfNoneTakesOwn: its scores do not arise in `run`, where a half-life of 0 makes the score of a slot just used NaN.
- Simulator.Run: has no row of `policy_lfu`, and `pass_len` is at least 1.
- Reservation.StartsKeepReservation: the clock stands still, and no device is set aside between the starts (the source plans again after a quarantine, which can delay any point).
- Reflex.Rank: an item has at least one candidate (`split` divides by zero otherwise).
- Threads, locks, subprocesses, VRAM readings, clocks, cores and Slurm in the runner: what they read is an input of a step.
- Scheduler.BackfillKeepsReservation: the clock is not read again between the plan and the launch.
- Kills of leftover servers (`kill_orphans`) and the busy-time accounting of `reap`.
- `within_question`, `ece`, `three_way`, `fit_two_thresholds`, bootstraps and the other reports: easy, or approximate by design.
- `add_metadata` and the alignment helpers of `gguf_patch.rs`, which only its tests use.
- `readinto`, `arc_file` and the retries of HTTP: `Read` is what they rest on.
- The scores in a ranking's answer and its order; `TwoStage`, embeddings and BM25.
- `parse_sacct`, `pace`, `runs_out` and the other sums of `budget.py`.
- MuSiQue's draws of passages; a document's name is its id here, `musique/<id>` in the source.
