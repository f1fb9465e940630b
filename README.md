# Packet impairment and counting elements of FastClick, in Dafny

This project models five FastClick elements. Four of them deliberately
damage a packet stream; the fifth counts it:

- **TargetedLoss** drops bursts of packets. A burst starts with a random
  sample among packets whose addresses match SOURCE/DEST or PREFIX rules.
- **TargetedDropFirstNofK** and **TargetedDropLastNofK** drop the first,
  or the last, N of every K matching packets.
- **SimpleReorder** holds sampled packets on a chain. Later packets
  overtake them, and each held packet is released after PACKETS passes or
  TIMEOUT.
- **DelayJitterShaper** delays every packet by DELAY plus a jitter in
  0..JITTER, redrawn once every BURST packets.
- **Counter** counts packets and bytes in 64-bit counters. It fires a
  handler call when a count equals a trigger value.

Each element whose fields change in place is a `class` with those fields.
Its methods carry `modifies` clauses and are proved against pure
specification functions. These are a step (`OnMatch`, `FirstStep`,
`LastStep`, `AfterEmit`/`AfterPass`/`AfterHold`, `NextJitter`,
`PacketStep`), a run over many packets (`LossRun`, `FirstRun`, `LastRun`,
`PullRun`, `JitterRun`, `PreciseRun`), or a batch (`BatchStep`). The
properties are lemmas about those functions.

The outside world enters as parameters:
- the clock (`now`);
- random draws (`draw`, `draws`);
- what the upstream pull returns (`up`);
- outcomes of library parsing (`Option` values, `None` when the text does
  not parse);
- whether a handler call resolved.

Integer widths are explicit:
- `u32` and `u64` wrap as `uint32_t` and `uint64_t` do (`Inc32`, `Dec32`,
  `Add32`, `Add64`);
- `(signed)` casts are `AsSigned32`;
- times are whole microseconds.

Files:
- `common.dfy`: integers, `Option`, `Packet`, `CountTrue`;
- `sampling.dfy`: the 28-bit fixed-point sampling gate;
- `prefix_match.dfy`: the rule matching, configuration and write handlers
  shared by the three targeted elements;
- one file per element.

Where the documentation and the code disagree, the model follows the code:
- TargetedDropLastNofK drops matches K−N .. K−1 of each window, and the
  K-th passes.
- With N == K, TargetedDropFirstNofK drops K matches in a window of
  K + 1.
- A sampling probability of 0 still samples a draw whose low 28 bits are 0.
- SimpleReorder's `_packet_counter` is not cleared when the chain empties.
  The next packet held inherits a stale count, and can be released at once.
- Counter's triggers (byte trigger included) fire on equality, not on
  "reaches or exceeds". A batch counted at once can jump over a trigger.
- DelayJitterShaper's "no earlier than T + DELAY + JITTER" holds with the
  current draw (at most JITTER) in place of JITTER. The first BURST − 1
  packets after configure use the full JITTER.
- The targeted elements clear their SOURCE/DEST flags at the start of
  configure, so a configure that fails leaves them cleared.
- TargetedDropFirstNofK with N == K == 2^32 − 1 never passes a matching
  packet: the counter wraps from 2^32 − 1 to 0, so it never ends a window.
- SimpleReorder's run_task hands an expired packet to
  `checked_output_push(1, …)`, but the element declares one output only
  (elements/local/simplereorder.hh:68), so that packet is freed rather
  than emitted. The model returns it as `pushed`.

## Model

| member | source | states |
|---|---|---|
| Sampling.Sampled | elements/local/targetedloss.cc:157 | The gate `(draw & SAMPLING_MASK) <= prob`. A probability of at least 2^28 − 1 always samples; probability 0 samples exactly the draws whose low 28 bits are zero |
| Sampling.Masked | elements/local/targetedloss.hh:87-88 | Masking with 2^28 − 1 gives at most 2^28 − 1 and leaves a small draw unchanged |
| Sampling.ProbWrite | elements/local/targetedloss.cc:312-320 | A sampling_prob write is accepted iff it parsed and is at most 2^28 (1.0); the stored value is the parsed one |
| PrefixMatch.MatchesPrefix | elements/local/targetedloss.cc:140-147 | An address matches a rule iff it agrees with the network on every bit of the mask |
| PrefixMatch.PrefixModeSymmetric | elements/local/targetedloss.cc:146-151 | In prefix mode, swapping source and destination does not change the match |
| PrefixMatch.ZeroMaskMatchesAll | elements/local/targetedloss.cc:146-151 | In prefix mode a zero mask matches every packet |
| PrefixMatch.ConfiguredRules | elements/local/targetedloss.cc:65-84 | After configure, SOURCE/DEST is set iff its network is non-zero and holds the given rule. PREFIX is assigned only when neither is given; unassigned slots keep their old values |
| PrefixMatch.ConfiguredMatching | elements/local/targetedloss.cc:59-84 | A configuration with only PREFIX matches iff either address matches PREFIX. One with both SOURCE and DEST needs both to match |
| PrefixMatch.ApplyRuleWrite | elements/local/targetedloss.cc:253-308 | A prefix write unsets SOURCE and DEST. A source (dest) write sets its own side and, with CLEAROTHER, unsets the other. No write changes another slot's rule |
| PrefixMatch.MatchingAfterWrite | elements/local/targetedloss.cc:253-308 | After each kind of write, exactly which addresses match: either address for prefix, the written side alone with CLEAROTHER, or the written side plus the still-set other side |
| TargetedLossElement.OnMatch | elements/local/targetedloss.cc:153-176 | A matching packet is dropped iff a burst runs or its draw is sampled. A passed packet changes nothing. A drop raises the drop count; the burst goes on iff the raised progress is below BURST. The at-rest invariant is kept |
| TargetedLossElement.BurstTail | elements/local/targetedloss.cc:161-173 | Inside a burst at progress c < BURST, the next BURST − c matches are all dropped whatever their draws. The element is then at rest with drops raised by that many (mod 2^32) |
| TargetedLossElement.BurstLength | elements/local/targetedloss.cc:155-173 | A burst started from rest drops exactly max(BURST, 1) consecutive matches and returns to rest |
| TargetedLossElement.NoBurstWithoutSample | elements/local/targetedloss.cc:155-160 | Outside a burst, matches whose draws are not sampled all pass and leave the state unchanged |
| TargetedLossElement.TargetedLoss.Configure | elements/local/targetedloss.cc:34-97 | Succeeds iff the keywords parse and PREFIX is not combined with SOURCE/DEST. On success it stores the rules, P, BURST and ACTIVE. The SOURCE/DEST flags are cleared even on failure. Burst state is untouched |
| TargetedLossElement.TargetedLoss.Initialize | elements/local/targetedloss.cc:99-106 | No burst running, progress and drop counters at 0 |
| TargetedLossElement.TargetedLoss.Pull | elements/local/targetedloss.cc:109-177 | A packet that is not targeted (inactive, null, no network header, no match) is returned unchanged with the state untouched. A targeted one is handled as OnMatch says |
| TargetedLossElement.TargetedLoss.WriteProb | elements/local/targetedloss.cc:311-320 | Stores the probability iff ProbWrite accepts it; otherwise nothing changes |
| TargetedLossElement.TargetedLoss.WriteRule | elements/local/targetedloss.cc:252-308 | A parsed write changes the rules as ApplyRuleWrite says and leaves the burst state alone; a rejected one changes nothing |
| TargetedLossElement.TargetedLoss.ClearDrops | elements/local/targetedloss.cc:322-327 | Zeroes the drop count only |
| DropFirstNofK.FirstStep | elements/local/targeteddropfirstNofK.cc:157-176 | The incremented (mod 2^32) counter drops the packet iff it is at most N. A passing packet resets it to 0 iff it reached K. With N ≤ K a counter at most K stays at most K |
| DropFirstNofK.FirstWindowFrom | elements/local/targeteddropfirstNofK.cc:160-173 | From counter c inside the window, the rest of the window drops exactly the matches that bring the counter to at most N, and ends at 0 |
| DropFirstNofK.FirstWindow | elements/local/targeteddropfirstNofK.cc:160-173 | From 0, one window (K matches, or K + 1 when N == K) drops exactly positions 1..N, N drops in all, and ends at 0 |
| DropFirstNofK.FirstCycles | elements/local/targeteddropfirstNofK.cc:160-173 | Over M whole windows exactly N·M matches are dropped and the counter returns to 0 |
| DropFirstNofK.AllOnesDropsAll | elements/local/targeteddropfirstNofK.cc:160-168 | With N == K == 2^32 − 1 the counter wraps from 2^32 − 1 to 0 and never exceeds N, so every matching packet is dropped, from any counter value |
| DropFirstNofK.TargetedDropFirstNofK.Configure | elements/local/targeteddropfirstNofK.cc:33-102 | Succeeds iff the keywords parse, PREFIX is not combined with SOURCE/DEST, and N ≤ K. SOURCE/DEST flags are cleared even on failure; the counters are untouched |
| DropFirstNofK.TargetedDropFirstNofK.Initialize | elements/local/targeteddropfirstNofK.cc:104-110 | Counter and drops start at 0 |
| DropFirstNofK.TargetedDropFirstNofK.Pull | elements/local/targeteddropfirstNofK.cc:113-177 | Untargeted packets pass with the counters unchanged. Targeted ones are counted and dropped or passed as FirstStep says, and each drop adds 1 to `_drops` |
| DropFirstNofK.TargetedDropFirstNofK.WriteRule | elements/local/targeteddropfirstNofK.cc:249-306 | The counter is reset to 0 whether or not the write is accepted; an accepted write changes the rules as ApplyRuleWrite says |
| DropFirstNofK.TargetedDropFirstNofK.ClearDrops | elements/local/targeteddropfirstNofK.cc:309-314 | Zeroes the drop count only |
| DropLastNofK.LastStep | elements/local/targeteddroplastNofK.cc:157-178 | The decremented (mod 2^32) counter drops the packet iff it is in 1..N. A passing packet resets it to K iff it reads ≤ 0 as a signed value. From a positive counter the step either resets to K or decrements to a positive value |
| DropLastNofK.LastWindowFrom | elements/local/targeteddroplastNofK.cc:160-174 | From counter c in 1..K (K ≤ 2^31), the next c matches drop exactly those leaving the counter in 1..N, and the last resets it to K |
| DropLastNofK.LastWindow | elements/local/targeteddroplastNofK.cc:160-174 | From K, a window of K matches drops exactly positions K−N..K−1 (N drops, or K−1 when N == K) and ends at K |
| DropLastNofK.LastCycles | elements/local/targeteddroplastNofK.cc:160-174 | Over M whole windows with N < K exactly N·M matches are dropped and the counter ends at K |
| DropLastNofK.LastZeroKNeverDrops | elements/local/targeteddroplastNofK.cc:161-174 | With K = 0 the counter wraps to −1 and is reset to 0 on every match; nothing is ever dropped |
| DropLastNofK.LastHugeKNeverDrops | elements/local/targeteddroplastNofK.cc:161-174 | With K above 2^31 and N < K − 1, K − 1 is not in 1..N and reads negative, so every match resets the counter to K and nothing is dropped |
| DropLastNofK.TargetedDropLastNofK.Configure | elements/local/targeteddroplastNofK.cc:33-103 | Succeeds iff the keywords parse, PREFIX is not combined with SOURCE/DEST, and N ≤ K. On success the counter starts at K. SOURCE/DEST flags are cleared even on failure |
| DropLastNofK.TargetedDropLastNofK.Initialize | elements/local/targeteddroplastNofK.cc:105-110 | Only the drop count is zeroed; the counter keeps its value |
| DropLastNofK.TargetedDropLastNofK.Pull | elements/local/targeteddroplastNofK.cc:113-179 | Untargeted packets pass with the counters unchanged. Targeted ones move the counter and are dropped or passed as LastStep says, and each drop adds 1 to `_drops` |
| DropLastNofK.TargetedDropLastNofK.WriteRule | elements/local/targeteddroplastNofK.cc:251-308 | The counter is reset to K whether or not the write is accepted; an accepted write changes the rules as ApplyRuleWrite says |
| DropLastNofK.TargetedDropLastNofK.ClearDrops | elements/local/targeteddroplastNofK.cc:311-316 | Zeroes the drop count only |
| SimpleReorderElement.AfterEmit | elements/local/simplereorder.cc:75-93 | Unlinking the head returns its packet. The rest of the chain keeps its packets and deadlines, the counter is untouched, and the chain invariant holds, so the rebasing subtraction never underflows |
| SimpleReorderElement.AfterPass | elements/local/simplereorder.cc:127-135 | A passed packet leaves the held packets and deadlines alone. It raises the counter by one iff something is held, and keeps the chain invariant |
| SimpleReorderElement.AfterHold | elements/local/simplereorder.cc:137-158 | A sampled packet is appended with the given deadline, the earlier nodes are unchanged, the counter restarts at 0, and the invariant holds |
| SimpleReorderElement.EmitKeepsWaited | elements/local/simplereorder.cc:87 | After the head is emitted, every remaining node has waited exactly as many passes as before |
| SimpleReorderElement.PassAddsOne | elements/local/simplereorder.cc:131-132 | A pass adds exactly one to the number of passes every held node has waited |
| SimpleReorderElement.HoldWaited | elements/local/simplereorder.cc:154-157 | A hold leaves earlier nodes' waits alone. The new node starts with a wait of the counter (empty chain) or the chain's excess |
| SimpleReorderElement.ExcessIsConstant | elements/local/simplereorder.cc:127-158 | Passes, holds and emits that keep the chain non-empty all keep the last node's excess over the counter |
| SimpleReorderElement.ExcessFromStaleCounter | elements/local/simplereorder.cc:154-157 | A chain started from empty has an excess equal to the counter left behind by the previous chain |
| SimpleReorderElement.PullRun | elements/local/simplereorder.cc:95-161 | One call of pull keeps the chain invariant and uses at most the given pulls. A released node is reported exactly when the packet came from the chain; an exhausted upstream returns null. The timer is scheduled only when the chain was empty |
| SimpleReorderElement.PullReleasesEligible | elements/local/simplereorder.cc:105-116 | A packet returned from the chain had reached PACKETS passes or its deadline. It is released before any pull exactly when the head was eligible on entry |
| SimpleReorderElement.PullHoldsSampled | elements/local/simplereorder.cc:118-158 | Every pull not returned was an active, sampled packet. A packet returned from upstream is a null, an inactive pass, or unsampled. The timer is scheduled iff a hold started a chain |
| SimpleReorderElement.PullConserves | elements/local/simplereorder.cc:95-161 | No packet is lost, duplicated or reordered: the old chain plus the packets held is the released packet (if any) plus the new chain |
| SimpleReorderElement.PullLoopResumes | elements/local/simplereorder.cc:101-160 | The loop after i held pulls computes the rest of the call, shifted by i |
| SimpleReorderElement.InactiveBypass | elements/local/simplereorder.cc:119-124 | While inactive, with no eligible head, pull returns what upstream gives and holds nothing |
| SimpleReorderElement.StaleCounterReleasesEarly | elements/local/simplereorder.cc:129-157 | With PACKETS 1: hold A, pass B, release A, leaving the counter at 1 on an empty chain. A packet C held next is released by the same call with no packet having passed it |
| SimpleReorderElement.TaskRun | elements/local/simplereorder.cc:163-194 | run_task pushes the head iff its deadline has come (the pass count is not consulted). It keeps the invariant and the counter, and reschedules for the new head's deadline iff something is still held |
| SimpleReorderElement.SimpleReorder.Configure | elements/local/simplereorder.cc:34-57 | Succeeds iff the keywords parse; then P, PACKETS, TIMEOUT and ACTIVE are stored. Held state and timer are untouched |
| SimpleReorderElement.SimpleReorder.Initialize | elements/local/simplereorder.cc:59-71 | Empty chain and zero counter |
| SimpleReorderElement.SimpleReorder.Emit | elements/local/simplereorder.cc:75-93 | The packet and new state are those of AfterEmit |
| SimpleReorderElement.SimpleReorder.Pull | elements/local/simplereorder.cc:95-161 | The while(1) loop returns the packet, new chain, counter and pull count of PullRun. The timer is set as PullRun schedules it |
| SimpleReorderElement.SimpleReorder.Admit | elements/local/simplereorder.cc:127-158 | Holds iff the draw is sampled. The new state is AfterPass or AfterHold, and the timer is scheduled at now + TIMEOUT when the hold starts a chain |
| SimpleReorderElement.SimpleReorder.RunTask | elements/local/simplereorder.cc:163-194 | The pushed packet, new state and timer are those of TaskRun; `worked` iff a packet was pushed |
| SimpleReorderElement.SimpleReorder.WriteProb | elements/local/simplereorder.cc:224-233 | Stores the probability iff ProbWrite accepts it; otherwise nothing changes |
| SimpleReorderElement.SimpleReorder.WriteTimeout | elements/local/simplereorder.cc:235-242 | Stores the timeout iff it parsed; held deadlines are unchanged |
| DelayJitterShaperElement.PacketJitter | elements/local/delayjittershaper.cc:84-99 | A packet is delayed by a fresh draw when JITTER ≠ 0 and the count has reached BURST, otherwise by the current jitter. After its release the count is 1 if it drew and one more than before if not, and the current jitter is the one it used |
| DelayJitterShaperElement.WithinBurst | elements/local/delayjittershaper.cc:84-99 | From count c in 0..BURST−1, the next BURST − c packets keep the current jitter whatever the draws, and the count ends at BURST |
| DelayJitterShaperElement.BurstSharesDraw | elements/local/delayjittershaper.cc:84-99 | With JITTER ≠ 0 and BURST ≥ 1, a packet admitted once the count reached BURST draws a jitter. It and the next BURST − 1 packets share that draw, and the packet after them draws again |
| DelayJitterShaperElement.ZeroJitterKeepsCurrent | elements/local/delayjittershaper.cc:84 | With JITTER 0 the jitter is never redrawn |
| DelayJitterShaperElement.NonPositiveBurstRedrawsEach | elements/local/delayjittershaper.cc:84-88 | With BURST ≤ 0 (as an int) and JITTER ≠ 0 every packet draws a fresh jitter |
| DelayJitterShaperElement.DelayJitterShaper.Configure | elements/local/delayjittershaper.cc:45-60 | Succeeds iff the keywords parse; then DELAY, JITTER and BURST (an unsigned stored as a signed int) are stored, the current jitter starts at JITTER and the count at 1. A failure changes nothing |
| DelayJitterShaperElement.DelayJitterShaper.Pull | elements/local/delayjittershaper.cc:77-120 | Pulls upstream only when empty. A new packet is stamped if untimed, with release time arrival + DELAY + current jitter (redrawn per NextJitter). A released packet had release time ≤ now (so it waited at least DELAY) and leaves stamped now. Otherwise the element stays awake within the timer adjustment, sleeps with the timer set beyond it, or sleeps when empty and upstream is idle. A packet held from an earlier call is released only once its release time, arrival + DELAY + jitter as recorded when it was admitted, is at most now; no call and no write handler changes that record |
| DelayJitterShaperElement.DelayJitterShaper.RunTimer | elements/local/delayjittershaper.cc:122-126 | Wakes the notifier and changes nothing else |
| DelayJitterShaperElement.DelayJitterShaper.Cleanup | elements/local/delayjittershaper.cc:70-75 | The packet freed is the held one, if any |
| DelayJitterShaperElement.DelayJitterShaper.WriteDelay | elements/local/delayjittershaper.cc:154-157 | Stores DELAY iff it parsed; the held packet keeps its release time |
| DelayJitterShaperElement.DelayJitterShaper.WriteJitter | elements/local/delayjittershaper.cc:158-161 | Stores JITTER iff it parsed; the current jitter is kept until the next draw |
| DelayJitterShaperElement.DelayJitterShaper.WriteBurst | elements/local/delayjittershaper.cc:162-165 | Stores BURST iff it parsed as an int |
| CounterElement.Check | elements/standard/counter.cc:251-263 | A trigger is marked fired iff it already was or the value equals it. Its handler is called iff it is installed, not yet fired, and the value equals it |
| CounterElement.CheckHandlers | elements/standard/counter.cc:251-263 | The count trigger sees the packet count and the byte trigger the byte count, independently |
| CounterElement.WatchFiresOnce | elements/standard/counter.cc:253-262 | Over any sequence of values, a trigger calls its handler at most once. It does so exactly when it is installed, not yet fired and one value equals it, and it ends fired iff it was or a value equalled it |
| CounterElement.PacketStep | elements/standard/counter.cc:273-286 | One packet adds 1 to the count and its length to the byte count, mod 2^64; in simple mode the triggers are neither checked nor changed |
| CounterElement.BatchStep | elements/standard/counter.cc:299-313 | A batch counted at once adds its size and its summed lengths, mod 2^64; in simple mode the triggers are untouched |
| CounterElement.Sum64 | elements/standard/counter.cc:299-302 | The length accumulator equals the exact sum of the lengths mod 2^64 |
| CounterElement.PreciseStats | elements/standard/counter.cc:293-297 | Counting packets one by one adds their number and total length, mod 2^64 |
| CounterElement.PreciseAgreesWithBatch | elements/standard/counter.cc:290-314 | With or without BATCH_PRECISE a batch leaves the same counts |
| CounterElement.PreciseRunWatchesCount | elements/standard/counter.cc:293-297 | Per packet, the count trigger sees every intermediate count count+1 … count+n |
| CounterElement.PreciseRunWatchesBytes | elements/standard/counter.cc:293-297 | Per packet, the byte trigger sees every intermediate byte count |
| CounterElement.PreciseCountTrigger | elements/standard/counter.cc:253-257 | Per packet, the count handler is called at most once in a batch: exactly when installed, not yet fired and some intermediate count equals the trigger |
| CounterElement.PreciseByteTrigger | elements/standard/counter.cc:258-262 | Per packet, the byte handler is called at most once: exactly when installed, not yet fired and some intermediate byte count equals the trigger |
| CounterElement.ByteTriggerNeedsEquality | elements/standard/counter.cc:258 | A byte count that jumps past the trigger (0 to 150 with trigger 100) calls nothing and leaves the trigger armed |
| CounterElement.BatchCountTrigger | elements/standard/counter.cc:299-313 | A batch counted at once calls the count handler iff it is installed, not yet fired and the final count equals the trigger |
| CounterElement.JumpedTriggerNeverFires | elements/standard/counter.cc:290-314 | From count 0 with the trigger at 2, three packets call the handler once when counted one by one, never when counted as a batch |
| CounterElement.Counter.Configure | elements/standard/counter.cc:49-97 | NO_RATE without either call selects simple mode. A given call stores its saturated trigger and installs the handler; a missing one sets the trigger to 2^64 − 1. A call whose count is not an integer fails after the keywords and any earlier trigger are stored |
| CounterElement.Counter.Reset | elements/standard/counter.cc:317-323 | Both counts become 0; the triggers are re-armed unless in simple mode |
| CounterElement.Counter.Initialize | elements/standard/counter.cc:99-114 | Fails without change when a handler call does not resolve. Otherwise it resets, and succeeds iff ATOMIC is 0, since a plain Counter cannot be atomic |
| CounterElement.Counter.SimpleAction | elements/standard/counter.cc:273-286 | The packet passes unchanged; the new state and handler calls are those of PacketStep |
| CounterElement.Counter.SimpleActionBatch | elements/standard/counter.cc:289-315 | The batch passes unchanged. With BATCH_PRECISE the state and calls are those of PreciseRun; otherwise those of BatchStep, with the lengths summed in a uint64 loop |
| CounterElement.Counter.Read | elements/standard/counter.hh:233-235 | Returns the two counts |
| CounterElement.Counter.AtomicRead | elements/standard/counter.hh:237-239 | Identical to read for a plain Counter |
| CounterElement.Counter.Add | elements/standard/counter.hh:241-244 | Both counts rise by the given stats mod 2^64; the triggers are not checked |
| CounterElement.Counter.AtomicAdd | elements/standard/counter.hh:246-248 | Identical to add for a plain Counter |
| CounterElement.Counter.WriteCountCall | elements/standard/counter.cc:174-180 | Accepted iff the count parses and the handler installs. A parsed count is stored even when the install fails, but only success re-arms the trigger |
| CounterElement.Counter.WriteByteCountCall | elements/standard/counter.cc:181-187 | The same for the byte trigger |
| CounterElement.Counter.Llrpc | elements/standard/counter.cc:213-249 | GET_RATE needs selector 0. GET_COUNT needs 0 or 1 and answers the count's low 32 bits. GET_COUNTS needs fewer than 8 keys, all 0 or 1, and answers one truncated count per key. Anything else is EINVAL; other commands are passed on |

## Left out

- Packet memory (`kill`, `uniqueify`): a dropped packet is simply not returned.
- `click_chatter` diagnostics, the stray counter print in TargetedDropLastNofK, and Counter's configure warnings and overflow messages.
- Argument parsing (`Args`, `IPPrefixArg`, `FixedPointArg`, `cp_time`, `cp_integer`, `IntArg`, `cp_argvec`): parsed values arrive as `Option`s. Keyword defaults are applied by the caller (`SimpleReorderElement.DEFAULT_ARGS` records SimpleReorder's).
- String read handlers (`config`, `source`, `dest`, `prefix`, `sampling_prob`, `delay`, `jitter`, `burst`, `count_call`, and the rest) and their `StringAccum` formatting.
- Plain data handlers (`active`, `burst`, `N`, `K`, `packets`, `drops`): they read and write a field directly, and the classes expose those fields.
- Host scheduling: Task, Timer, ActiveNotifier and NotifierSignal are reduced to a scheduled time (`timerAt`) and an awake flag. DelayJitterShaper's upstream signal and `Timer::adjustment()` are parameters.
- The clock: each call takes one `now`. The source reads the clock once per loop round in SimpleReorder, and separately for stamping and releasing in DelayJitterShaper.
- SimpleReorder's spin lock (`lock`) in pull and run_task: the model is single-threaded.
- SimpleReorderElement.SimpleReorder.Emit: clearing the emitted packet's own AGGREGATE_ANNO and next link is not modelled, since the packet leaves the element.
- SimpleReorderElement.PullRun: a pull beyond the given upstream results is taken to return null.
- DelayJitterShaper timestamps are whole microseconds; the sub-microsecond part of a Timestamp is not modelled.
- DelayJitterShaper: a negative JITTER is not modelled (`jitter` is a `nat`), because `click_random(0, negative)` has no meaning.
- DelayJitterShaper: overflow of the int `_count` is not modelled; the count is unbounded.
- DelayJitterShaperElement.DelayJitterShaper.Pull: `draw` must lie in 0..JITTER even when no draw is made, since click_random's range is a caller obligation.
- Counter: the concurrent variants (CounterMP, CounterRxWMP, CounterRCU, CounterAtomic, CounterLock, CounterRW, CounterPRW) and `do_mt_safe_check`, which are about per-thread storage and locks.
- Counter: the rate estimators (RateEWMAX), the rate, bit_rate and byte_rate handlers, and the GET_RATE value, which is a parameter. The averaging lives in a library that is not part of this model.
- Counter: HandlerCall invocation. A call is recorded as a `Fired` flag; whether a handler resolves or installs is a parameter.
- Counter: the 32-bit `counter_int_type` build; counts are `uint64_t`.
- CounterElement.Counter.Llrpc: the copy to and from user memory, and the unused GET_COUNTS value slots beyond n. click/llrpc.h is not part of this model; its counts structure is taken as 8 unsigned 32-bit keys and values.
- `drop_write_handler` in the targeted elements falls off the end without a return value; the model treats it as success.
- elements/wifi/sr2/sr2forwarder.cc, elements/local/vlanswitch.hh and elements/standard/minbatch.hh are outside the modelled elements.
