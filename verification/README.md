# Verified model of the fb303 stats library's concurrent core

fb303 lets a service bump counters and time series cheaply from many threads and lets
sweeper threads collect them into process-wide stats. This project models the parts of it
where many things can happen at once, or where a data structure carries a non-obvious
promise, and proves what they promise. `dafny verify dfyconfig.toml` checks all of it.

## What is modelled

**The seqlock time series** (`Words`, `History`, `Seqlock`, `SeqlockProof`,
`SeqlockCalls`, `TimeSeries`).
One adder keeps running totals split over an unsigned low word and a signed 64-bit carry; an
optional block holds the sum of `count - 1`; a sequence number counts the calls. Any number
of drainers claim bit 0 of the last sequence, read a snapshot with retries, publish new
baselines and clamp once. `Seqlock.Next` takes one atomic load, store or compare-and-swap a
step, `Seqlock.Run` any schedule of them; the compare-and-swap may fail spuriously, and the two
loads that reset() compares may come in either order, which C++ leaves open. The word width is a parameter. `TimeSeries` has the same class run by one thread, and the simpler
class that clamps on every add, and says exactly when the two agree.

**Registration** (`Registry`, `RegistryProof`, `LinkLifetime`, `EmptyFlag`,
`Conservation`, `SweepReach`, `SeriesWindows`, `RegistryCalls`, `RegistryProgress`).
Containers, stats, their owners inside link() and unlink(), sweeps, move construction and
assignment, and container destruction, all interleaved. The registry lock has a try-lock
whose failure sends a stat to a pending list, which whoever next takes the lock drains. What
only the lock's holder touches is one step a source statement; everything shared is one step
an access. `Conservation` follows every update from the stat that was given it to the global
stat. It is composed with the time series through `SeriesWindows`: every window that a run of
`Seqlock` returns is one that the registration model's reset() may take, and aggregate() passes
on what it makes of the returned pair.

**The weak interning set** (`NameSet`, `NameSetProof`, `NameSetCalls`). Strings keyed by raw address, with
reference counts, expired strings whose deleters race with lookups, and address reuse.

**The off-lock regex build** (`RegexBuild`, `RegexBuildProof`, `RegexBuildCalls`). Callers copy cached matches or
scan queued strings off the lock and publish by address, while names come and go and the
cache is purged. folly's RegexMatchCache is not part of this model. **It is assumed** to be
what `RegexBuild` states under "the cache": a string universe; for each registered regex a
set of matched and a set of queued strings; ready when registered with an empty queue;
publication moves scanned strings off the queue by address.

**Sequential structures**. `LruMap` is the LRU map, a list of nodes with an index, each method
proved against a function on the recency sequence; `LruStack` proves its stack property.
`KWayMerge` is getValues()'s heap merge, in place on an array. `FormattedKeys`,
`FormattedKeysProof` and `FormattedKeysCalls` are the three levels of the formatted-key cache, on any number of
threads, and `Formats` says when two lists of texts fill a format alike. `QuantileMap` is the quantile stat map's families of derived names. `Options`,
`Decimals` and `Sequences` are shared helpers.

The modules named for calls and progress tie the runs to what callers asked for: each answer
to the action that called for it, the history and the accounts to the arguments that were
passed, and each call, left to run by itself, to a bounded return with its result.

## Where the steps come from

The step functions compute and promise nothing by themselves; what they keep is in the table.

- `Words.AddRaw`, `Words.Difference`, `Words.AddCalls`, `Words.Clamp`: fb303/TLStatsLockTraits.h:279-296, 471-521.
- `Seqlock.NextAdder`: addValue(), :333-356. `Seqlock.NextClaim`: reset() and the claim, :361-426. `Seqlock.NextRead`: the baseline loads and readTotals(), :428-432, 530-549. `Seqlock.NextPublish`: the stores and the result, :433-443.
- `Registry.Defer`, `Registry.Register`: link(), fb303/ThreadLocalStats-inl.h:73-110. `Registry.Unregister` and the owner's ResetValue, Take and Deposit steps: unlink(), :113-135. `Registry.Drain`: completePendingLink(), :538-551. The Sweep steps: aggregate(), :579-606. The Destroy steps: the container's destructor, :562-576. `Registry.Replace`: moveAssignment() and replaceFromOther(), :171-195 and fb303/ThreadLocalStats.h:957-963. `Registry.Passed`: what aggregate() passes on, :291-305, 523-530.
- `NameSet.NextStep`, `NameSet.Found`, `NameSet.Missed`: getFast(), getSlow() and clean(), fb303/ThreadLocalStats.cpp:125-157. `NameSet.Dropped`: the deleter, :71-76.
- `RegexBuild.NextStep`: cachedFindMatches() and cachedFindMatchesSnapshot(), fb303/detail/RegexUtil.h:120-133, 147-242. `RegexBuild.AddEntry`, `RegexBuild.EraseEntry`: :58-111. `Trim`: :255-261. `Overwrite`: registerCallback(), fb303/CallbackValuesMap-inl.h:161-183.
- `FormattedKeys.NextStep`: getFormattedEntry() and what it calls, fb303/ThreadCachedServiceData.h:732-821. `FormattedKeys.Hash`, `FormattedKeys.FormatKey`: :494-515, 560-572.

## Results that are not a plain yes

- The unlocked empty flag is right throughout a run if and only if no unlink() stores true over
  a pending stat whose link() is already past its own store (`EmptyFlag.FlagSoundIff`). Calls
  that a container's owner serializes never do that; most overlaps do not either. The comment on
  aggregate() says that the check may miss concurrent calls; a run of `EmptyFlag` shows more: the
  flag can stay true after both calls have returned, with a linked stat still pending.
- aggregate() skips a time series window whose count is zero together with its sum. Nothing of a
  time series is dropped at any point of a run if and only if every window taken for it fits and
  hides no sum behind a zero count (`Conservation.LosslessIff`); samples that all count at least
  once hide none.
- prepareKey runs at most once for each subkey array, but distinct arrays can have one key, and
  then it repeats that key. With a format that fills its placeholders in order, any number of
  them, it does exactly when the texts of one array can be shifted into those of the other
  across the literal pieces (`FormattedKeysProof.PreparedKeyRepeatsIff`). Integers against their
  decimal texts are one case under any format; `"bar.{}.{}"` with `("a.b", "c")` and
  `("a", "b.c")` is another. With one placeholder, or texts that lack the first characters of
  the pieces between them, the first case is the only one; no format with two placeholders or
  more tells all texts apart (`Formats.TellsApartIff`).
- Names within a quantile base coincide exactly when one is an all-time percentile whose text is
  another percentile's text, a point and that one's window (`QuantileMap.NamesCoincideIff`); then
  the first entry added keeps the name, and forgetting the base still removes exactly its family.

## Model

| member | source | states |
|---|---|---|
| Words.AddRawExact | fb303/TLStatsLockTraits.h:279-296 | Adding an addend of less than one modulus to the two words, with its sign passed alongside, gives the words of the exact integer sum, for every width up to 64 bits, whether or not the low word wraps |
| Words.DifferenceExact | fb303/TLStatsLockTraits.h:471-480 | The difference of two totals' words is the words of the difference of the totals, when that fits the carry, even if the words themselves do not |
| Words.AddCallsExact | fb303/TLStatsLockTraits.h:482-500 | Adding the call count is exact in both branches: the narrow one, where the low word can wrap many times at once, and the full-width one |
| Words.ClampExact | fb303/TLStatsLockTraits.h:502-521 | Clamping the words gives the integer they stand for, brought once into the range of the signed type |
| History.CarryNeverOverflows | fb303/TLStatsLockTraits.h:253-256 | The carry moves by at most one an update, so fewer than 2^63 updates never overflow it |
| History.CountIsCallsPlusSurplus | fb303/TLStatsLockTraits.h:348-353 | The number of calls plus the sum of count - 1 over them is the sum of the counts |
| History.UpdateExact | fb303/TLStatsLockTraits.h:333-356 | What addValue() passes to addRaw() takes the words of a total to the words of the total with the update, counts of 0 and of the type's minimum included |
| History.WindowExact | fb303/TLStatsLockTraits.h:428-443 | For any history and any window of it, difference, addCalls and clamp on the totals at the window's ends give the window's exact count and sum, each clamped once |
| TimeSeries.NoLockingSeries.AddValue | fb303/TLStatsLockTraits.h:132-135 | The non-locking class keeps the saturating sums, update by update, of the window so far |
| TimeSeries.NoLockingSeries.Reset | fb303/TLStatsLockTraits.h:140-142 | reset() returns those saturating sums and starts an empty window |
| TimeSeries.ThreadSafeSeries.AddValue | fb303/TLStatsLockTraits.h:333-356 | Run by one thread: the words stay those of the exact totals, including across the creation of the surplus block |
| TimeSeries.ThreadSafeSeries.Reset | fb303/TLStatsLockTraits.h:361-367 | Run by one thread: reset() returns the exact count and sum of the updates since the previous one, clamped once, and drains them |
| TimeSeries.ThreadSafeSeries.Drain | fb303/TLStatsLockTraits.h:409-443 | The slow path replaces both baselines with the totals and returns their differences |
| TimeSeries.ThreadSafeSeries.WindowCount | fb303/TLStatsLockTraits.h:375-388 | count() is the exact count of the window so far, clamped |
| TimeSeries.ThreadSafeSeries.WindowSum | fb303/TLStatsLockTraits.h:391-394 | sum() is the exact sum of the window so far, clamped |
| TimeSeries.SaturatedIsAClampedShift | fb303/TLStatsLockTraits.h:119-125 | Clamping on every add is a shift by the true total between two limits that the window alone determines |
| TimeSeries.ClampPerAddAgreesIff | fb303/TLStatsLockTraits.h:182-188 | The two classes return the same total for a window exactly when the clamped true total is within the limits that clamping on every add leaves reachable |
| TimeSeries.AgreeWhenPrefixesFit | fb303/TLStatsLockTraits.h:119-142 | They agree when no prefix of the window leaves the type's range |
| TimeSeries.AgreeWhenOneSign | fb303/TLStatsLockTraits.h:119-142 | They agree, saturated or not, when all addends of the window have one sign |
| TimeSeries.OverflowAndBackDisagrees | fb303/TLStatsLockTraits.h:184-186 | A total that overflows and comes back is reported as the limit less one by one class and truly by the other, at every width |
| SeqlockProof.SnapshotExact | fb303/TLStatsLockTraits.h:530-549 | In every interleaving of one adder and any number of drainers, a snapshot accepted for sequence s has the exact totals of value and of count - 1 over the same first s/2 updates, with no block read as zero |
| SeqlockProof.WindowsPartitionHistory | fb303/TLStatsLockTraits.h:409-443 | In every run the windows that reset() returned are consecutive, each pair is its window's exact totals clamped once, and the windows plus what is undrained add up to everything added |
| SeqlockCalls.HistoryIsTheCalls | fb303/TLStatsLockTraits.h:333-356 | In every run the history that the windows partition is, in order, the arguments of the accepted addValue() calls, value and count, less the call in progress; a call is accepted when none is in progress, its arguments are of the type and the count has room |
| SeqlockCalls.AddValueReturns | fb303/TLStatsLockTraits.h:333-356 | From any state of a run with no addValue() in progress, a call by itself returns within twelve steps, and the history has grown by exactly its arguments, with the count 1 or not |
| SeqlockCalls.ResetReturns | fb303/TLStatsLockTraits.h:361-443 | From any state of a run with no update in progress and no claim, a reset() by itself returns within nineteen steps, with one more window, which ends with the last update |
| SeqlockProof.ResetIsABarrier | fb303/TLStatsLockTraits.h:361-367 | When a reset() returns, early or with a window, every update that was complete when it read the sequence is in exactly one returned window, its own or an earlier one |
| SeqlockProof.ClaimIsExclusive | fb303/TLStatsLockTraits.h:409-439 | At most one drainer holds the odd claim, the masked last sequence never exceeds the sequence, and whenever it is even the baselines are the exact totals at that update |
| SeqlockProof.OnlyTheHolderWritesBaselines | fb303/TLStatsLockTraits.h:434-437 | No step of a run changes a baseline but one of the drainer that holds the claim |
| SeqlockProof.SequencesAreMonotone | fb303/TLStatsLockTraits.h:258-261 | Every step of a run keeps the masked last sequence and the sequence from going back, and only extends the history and the log of windows |
| RegistryProof.NoCheckFires | fb303/ThreadLocalStats-inl.h:101-129 | In every run none of the CHECKs of link(), unlink() and (line 545) completePendingLink() fires |
| RegistryProof.RegisteredExactlyOnce | fb303/ThreadLocalStats-inl.h:73-135 | In every run, a stat whose link() has returned and whose unlink() has not begun is in exactly one of the main set, the pending list and the drain in progress; a resting stat is in none |
| RegistryProof.SweepsCallLinkedStats | fb303/ThreadLocalStats-inl.h:598-603 | A sweep only calls a stat that exists, of its own live container, and whose unlink() has not taken it out |
| RegistryProof.EndsKeep | fb303/ThreadLocalStats-inl.h:73-135 | Any one step of link() or unlink(), try_lock() failing or not, keeps the registry invariant and fires no CHECK |
| RegistryProof.DrainStepKeeps | fb303/ThreadLocalStats-inl.h:538-551 | Any step of completePendingLink() keeps the invariant and fires no CHECK, whoever else is between steps |
| RegistryProof.LockStepKeeps | fb303/ThreadLocalStats-inl.h:562-576 | Taking the lock for a sweep or for the container's destruction, and what each does under it, keeps the invariant |
| SweepReach.SweepReachesEveryStat | fb303/ThreadLocalStats-inl.h:579-606 | When a sweep releases the lock, it has called each stat registered with its container by an action since it took that lock, has drained at least all that the stat had been given before that action, and has deposited what it drained, whatever owners and other sweeps did meanwhile |
| RegistryProgress.LinkReturns | fb303/ThreadLocalStats-inl.h:73-110 | link(), from any state of a run in which no one is at the pending list, whoever holds the registry lock and whether try_lock() fails or not: by itself it returns within a bounded number of steps, and the stat is registered if the container exists |
| RegistryProgress.UnlinkReturns | fb303/ThreadLocalStats-inl.h:113-135 | unlink(), from any state of a run with the lock free: by itself it returns, the stat is registered no more, and its global stat has grown by what aggregate() passes on of all that was not yet drained |
| RegistryProgress.SweepReturns | fb303/ThreadLocalStats-inl.h:579-606 | aggregate() of a container, from any state of a run with its lock free: by itself it completes, every stat that was registered or pending is in the main set, and has nothing left to drain |
| RegistryProgress.AggregateReturns | fb303/ThreadLocalStats-inl.h:290-311 | Each call of a sweep by itself drains all that its stat was given, adds what passes to its global stat and touches no other |
| RegistryProgress.DestroyReturns | fb303/ThreadLocalStats-inl.h:562-576 | The destruction of a container, from any state of a run with its lock free and no link() in progress, completes: its link refers to no container and no stat is registered with it |
| LinkLifetime.FreedWithTheLastReference | fb303/ThreadLocalStats.h:860-870 | In every run the reference count is the number of existing pointers to the link, which is freed exactly when it is zero, and no existing stat or live container refers to a freed link |
| LinkLifetime.ReplaceKeeps | fb303/ThreadLocalStats.h:957-963 | replaceFromOther() keeps every count right, also when both sides already share the link, where the count drops before it rises |
| EmptyFlag.FlagSoundIff | fb303/ThreadLocalStats-inl.h:91-93 | For every run, however calls overlap: in every state a flag that reads true hides no stat but those whose own link() is about to clear it, if and only if no unlink() sets it over a pending stat whose link() is past its own store |
| EmptyFlag.OverwriteBreaksFlag | fb303/ThreadLocalStats-inl.h:130-132 | Any such store leaves the flag true over a pending stat that no link() will clear it for |
| EmptyFlag.LinkedStatClearsFlag | fb303/ThreadLocalStats-inl.h:594-596 | In a run without such a store, and whatever link()s are in progress, a live container with a linked stat at rest has its flag false, so no sweep skips the stat |
| EmptyFlag.SkipMissesNothingUnlessOverwritten | fb303/ThreadLocalStats-inl.h:594-596 | In such a run every stat that a true flag hides is one whose own link() is about to clear it, and with no such link() nothing is registered, pending or being drained |
| EmptyFlag.SerializedNeverOverwrites | fb303/ThreadLocalStats.h:469-475 | Calls that a container's owner serializes never make such a store, whatever sweeps do |
| EmptyFlag.SkipMissesNothing | fb303/ThreadLocalStats-inl.h:594-596 | So when link() and unlink() on a container are serialized, a flag that reads true with no link() in progress means that nothing is registered, pending or being drained, so the early return skips no stat |
| EmptyFlag.UnserializedSkipMissesAStat | fb303/ThreadLocalStats-inl.h:124-133 | A run that does make such a store ends with every call returned, the flag true and a linked stat on the pending list |
| Conservation.GivenIsPassedLostOrOwed | fb303/ThreadLocalStats-inl.h:290-311 | In every run, what a global stat's stats were given is what it has, plus what aggregate() dropped, plus what they still owe |
| Conservation.UnlinkedOwesNothing | fb303/ThreadLocalStats-inl.h:112-135 | Once unlink() has returned, its stat owes nothing, even if a sweep drained it concurrently |
| Conservation.UnlinkedIsPassedOrLost | fb303/ThreadLocalStats-inl.h:112-135 | Once all stats of a global stat are unlinked, all they were given is in it or was dropped, across moves and assignments |
| Conservation.SeriesConserved | fb303/ThreadLocalStats-inl.h:291-305 | If every window taken for it fits and hides no sum behind a zero count, the global time series ends with exactly the count and sum of what its unlinked stats were given |
| Conservation.LosslessIff | fb303/ThreadLocalStats-inl.h:292-304 | For every run and time series: nothing of it is dropped at any point if and only if every window taken for it fits and hides no sum behind a zero count |
| Conservation.StepWritesOff | fb303/ThreadLocalStats-inl.h:291-305 | Every step drops exactly the damage of the window it takes, and nothing of any other global stat |
| Conservation.CountedSeriesConserved | fb303/ThreadLocalStats-inl.h:291-305 | Samples that all count at least once are conserved as long as no window saturates |
| SeriesWindows.ReturnsAreWindows | fb303/ThreadLocalStats-inl.h:291-304 | Every pair that a reset() returns in any concurrent run is the pair aggregate() passes on for a window that holds at least all that was complete when the reset() read the sequence |
| Conservation.CounterConserved | fb303/ThreadLocalStats-inl.h:523-530 | For a counter the same holds modulo 2^64, with no condition |
| Conservation.PassedExactIff | fb303/ThreadLocalStats-inl.h:292-304 | aggregate() passes a window on undamaged exactly when both totals fit and a zero count does not hide a sum |
| Conservation.ZeroCountDropsTheSum | fb303/ThreadLocalStats-inl.h:294-298 | A window whose count is zero is skipped with its sum |
| Conservation.CounterLossIsAWrap | fb303/ThreadLocalStats-inl.h:523-530 | What a counter's window loses is a multiple of 2^64 |
| Conservation.MoveAssignBooks | fb303/ThreadLocalStats-inl.h:169-195 | Move assignment neither creates nor loses any amount; where the global stats go is stated by the next three rows |
| RegistryCalls.AssignmentSwaps | fb303/ThreadLocalStats-inl.h:171-195 | After x = std::move(y) in any run, x has y's former link and global stat, y keeps its link and has x's former global stat, both are at rest with nothing given, and no other stat, registration or global stat has changed |
| RegistryCalls.AssignedStatGivesToTheNewLedger | fb303/ThreadLocalStats-inl.h:247-256 | Whatever follows, up to another assignment of the stat, every update given to x is accounted to y's former global stat and to no other, every update given to y to x's, and each has exactly those in its history |
| RegistryCalls.GivenGoesToItsLedger | fb303/ThreadLocalStats-inl.h:171-195 | For any stat and any stretch of a run in which it is not assigned, what it is given is accounted to its own global stat and to no other |
| RegistryCalls.AccountIsWhatWasGiven | fb303/ThreadLocalStats-inl.h:290-311 | In every run the account of a global stat, which the conservation results speak of, is the sum of the updates that accepted addValue() calls gave to stats that were its own at the time |
| RegistryCalls.MoveConstructs | fb303/ThreadLocalStats-inl.h:229-245 | Move construction makes a new stat with the other's link and global stat, at rest and given nothing, and changes nothing else but the reference count |
| RegistryCalls.Constructs | fb303/ThreadLocalStats-inl.h:221-226 | Construction makes a new stat of that container for that global stat, at rest and given nothing |
| RegistryCalls.Destroys | fb303/ThreadLocalStats-inl.h:259-262 | Destruction of a stat at rest takes it away, drops its one reference and changes nothing else |
| NameSetProof.NoDanglingKey | fb303/ThreadLocalStats.cpp:91-96 | In every run every key in the set is the address of a string still in memory, with that string's own control block, so a lookup reads no deleted string even though addresses are reused |
| NameSetProof.OneLiveStringPerName | fb303/ThreadLocalStats.cpp:71-76 | At most one live string has a given name |
| NameSetProof.ReturnedIsTheName | fb303/ThreadLocalStats.cpp:135-162 | What was returned for a name is, for as long as it is held, a string of that name and in the set; that it is the name asked for is the next row |
| NameSetCalls.ReturnAnswersItsCall | fb303/ThreadLocalStats.cpp:135-162 | Every reference that a run returned is that of a call: some action called get() with that very name on the thread that returned it, idle before, and the thread was in that one call from then to the step that returned |
| NameSetCalls.GetEnds | fb303/ThreadLocalStats.cpp:135-162 | A call of get() for a name ends by returning a reference for that name, and in no other way |
| NameSetCalls.HeldIsTheNameAskedFor | fb303/ThreadLocalStats.cpp:135-162 | So a held result is a string of the set whose text is the name in that action |
| NameSetCalls.GetReturns | fb303/ThreadLocalStats.cpp:135-162 | get(), from any state of a run in which all threads are idle, returns by itself in at most seven steps: the set's own string of that name with one reference more, or a new one that is added when there is none |
| NameSetCalls.CountIsTheReferencesOut | fb303/ThreadLocalStats.cpp:135-162 | In every run a string's reference count is the references that clients got or copied and have not dropped, plus the one that a get() which just made the string is about to return |
| NameSetCalls.LastDropDeletes | fb303/ThreadLocalStats.cpp:71-76 | Dropping the last reference with all threads idle deletes the string and takes its key out in five steps, and changes nothing else |
| NameSetProof.CallersShareThePointer | fb303/ThreadLocalStats.cpp:159-162 | Two calls for one name whose references are both held returned the same pointer |
| NameSetProof.CleanErasesOnlyExpired | fb303/ThreadLocalStats.cpp:125-133 | The assertion in clean() never fires: the key it is about to erase has no reference left |
| NameSetProof.NothingLeaks | fb303/ThreadLocalStats.cpp:125-133 | Once no reference is held and all calls and deleters have finished, the set and the heap are empty |
| NameSetProof.ExpireKeeps | fb303/ThreadLocalStats.cpp:72-75 | Dropping the last reference hands the string to one deleter and keeps the invariant |
| NameSetProof.EraseKeeps | fb303/ThreadLocalStats.cpp:137-142 | getSlow() taking out an expired key before its deleter does keeps the invariant |
| NameSetProof.InsertKeeps | fb303/ThreadLocalStats.cpp:143-145 | Inserting the new string keeps one key a name |
| NameSetProof.CompareKeeps | fb303/ThreadLocalStats.cpp:125-133 | clean() comparing addresses takes out its own key or leaves a successor's alone |
| RegexBuildProof.AnswersAreExact | fb303/detail/RegexUtil.h:147-242 | Whatever is added, erased, overwritten, cleared or purged during an off-lock scan, what a call appends is exactly the names that match in the map at the instant it copies them, a step of its own inside the call |
| RegexBuildProof.EveryAnswerWasExact | fb303/detail/RegexUtil.h:147-242 | For every answer in any run, at the instant that the call giving it copied it, with its caller inside that call, the answer was exactly the matching names in the map |
| RegexBuildCalls.AnswersItsCall | fb303/detail/RegexUtil.h:147-242 | Every answer of a run is that of a call: begun by an action with its regex, its caller idle before and in that one call from then to the step that copied exactly the names that match that regex in the map |
| RegexBuildCalls.SearchReturns | fb303/detail/RegexUtil.h:147-242 | A search, from any state of a run, with nothing thrown returns by itself exactly what matches: in two steps under the lock, or off it in at most four more than the map has entries |
| RegexBuildCalls.MapIsEdited | fb303/detail/RegexUtil.h:58-111 | The names in the map change by exactly the name added or erased, and no search, purge or overwrite changes them; an overwrite puts a new entry under the name |
| RegexBuildProof.PublishOkIff | fb303/detail/RegexUtil.h:190-195 | Publishing a scan files every string by its name exactly when, for each scanned string still queued, the scan said what the name now at that address says; pins make that so |
| RegexBuildProof.ScanReadsNoFreedString | fb303/detail/RegexUtil.h:184-187 | Every string an off-lock scan has still to read is in memory |
| RegexBuildProof.DrainIsBounded | fb303/detail/RegexUtil.h:230-232 | Unless the scan's registration was purged, what is left for the drain under the lock was added during the scan |
| RegexBuildProof.ThrowIsScoped | fb303/detail/RegexUtil.h:214-228 | Followed from the throw to the return, whatever others do in between: the throw changes nothing but where its caller stands, what the scan pinned stays in memory, nothing is answered for it, and the return leaves its regex ready or unregistered and every other regex as it was |
| RegexBuildProof.ReadyIsExact | fb303/detail/RegexUtil.h:120-133 | The matches of a ready regex are exactly the names in the map that match |
| RegexBuildProof.DrainKeeps | fb303/detail/RegexUtil.h:120-133 | The drain under the lock, throwing or not, keeps the invariant |
| RegexBuildProof.AddKeeps | fb303/detail/RegexUtil.h:58-93 | Adding a name keeps the map and the cache's strings in step, and disturbs no scan in progress |
| RegexBuildProof.EraseKeeps | fb303/detail/RegexUtil.h:99-102 | So does erasing one |
| LruMap.LruMap.constructor | fb303/SimpleLRUMap.h:112-113 | A new map is empty |
| LruMap.LruMap.Evict | fb303/SimpleLRUMap.h:68-75 | Takes the last entry off the list and its key out of the index, and hands the entry to the callback |
| LruMap.LruMap.EnsureRoom | fb303/SimpleLRUMap.h:78-88 | Evicts off the back, in that order, to one less than the capacity, or refuses when there is none |
| LruMap.LruMap.Splay | fb303/SimpleLRUMap.h:90-93 | Moves an entry's own node to the front and keeps the others in order |
| LruMap.LruMap.TryAdd | fb303/SimpleLRUMap.h:96-109 | A new key goes to the front after the evictions that make room |
| LruMap.LruMap.Find | fb303/SimpleLRUMap.h:306-334 | Finds the value, moves the entry to the front if asked, and counts one hit or one miss |
| LruMap.LruMap.TryGetOrCreate | fb303/SimpleLRUMap.h:157-175 | Returns the value, makes it if absent, or returns none without capacity; the new recency sequence, the evictions and the counts are as specified |
| LruMap.LruMap.TrySet | fb303/SimpleLRUMap.h:254-275 | Sets a present key's value, moving it or not, or adds an absent one; 0, 1 and -1 mean what the comment says |
| LruMap.PutStores | fb303/SimpleLRUMap.h:254-275 | By key and value: after a set with room for one entry, the key has the new value, every other key that stays has the value it had, a set that does not move leaves a present key's place, and without room nothing changes |
| LruMap.GottenFetches | fb303/SimpleLRUMap.h:157-175 | By key and value: after get_or_create() a key that was present has the value it had, an absent one the made value, every other key that stays keeps its value, and a present key that is not moved leaves all as it was |
| LruMap.LruMap.Erase | fb303/SimpleLRUMap.h:339-352 | Erases exactly the key's entry, or says it was absent |
| LruMap.LruMap.EraseAt | fb303/SimpleLRUMap.h:355-368 | Erases the entry at an iterator and returns where the next one is |
| LruMap.LruMap.SetCapacity | fb303/SimpleLRUMap.h:437-452 | Shrinking evicts off the back, in that order, down to the new capacity; growing evicts nothing |
| LruMap.LruMap.Clear | fb303/SimpleLRUMap.h:409-417 | Empties the list and the index, and the counts if asked |
| LruMap.MovedIndexed | fb303/SimpleLRUMap.h:90-93 | After a splay list and index still agree: distinct keys, each indexed to its own node |
| LruMap.AddedIndexed | fb303/SimpleLRUMap.h:96-109 | Likewise after an insertion at the front |
| LruMap.WithoutIndexed | fb303/SimpleLRUMap.h:339-368 | Likewise after an erasure, which takes the key's own node |
| LruStack.Replay | fb303/SimpleLRUMap.h:157-275 | Replaying any trace of set() and get_or_create() on the map itself ends with the contents and the hit count that the lemmas below speak of |
| LruStack.HoldsTheMostRecent | fb303/SimpleLRUMap.h:157-275 | On any trace of set() and get_or_create() that move to the front, a map of capacity c >= 1 holds the first c of the trace's distinct keys, most recently used first |
| LruStack.HeldValue | fb303/SimpleLRUMap.h:157-275 | On such a trace every key that is held has the value of the last set() of it since it was last inserted, or else what its insertion made |
| LruStack.RecentOrder | fb303/SimpleLRUMap.h:90-93 | In that reference order a key comes before another when its last use is later |
| LruStack.RecentKeys | fb303/SimpleLRUMap.h:157-275 | The reference order lists exactly the trace's keys, each once |
| LruStack.SmallerIsAPrefix | fb303/SimpleLRUMap.h:78-88 | A smaller map's keys are always a prefix of a larger one's on the same trace |
| LruStack.LargerNeverHitsLess | fb303/SimpleLRUMap.h:319-334 | A larger map's hit count, which find() advances and set() does not, is never less on the same trace |
| LruStack.LargerFindsMore | fb303/SimpleLRUMap.h:319-334 | Operation by operation, a key that the smaller map has the larger one has, too |
| KWayMerge.InvokeAndMergeInto | fb303/CallbackValuesMap-inl.h:40-77 | Visits every entry of every shard exactly once, in ascending order of name, and leaves the output as those visits make it; ends because each turn leaves one entry fewer |
| KWayMerge.MergeOverrides | fb303/CallbackValuesMap-inl.h:62-71 | With distinct names the output is the old map overridden by every callback that returned a value, and nothing else |
| KWayMerge.Turn | fb303/CallbackValuesMap-inl.h:59-75 | One turn yields the heap's least entry, advances its run or replaces it with the last one, and restores the heap over what is left |
| KWayMerge.FillHeap | fb303/CallbackValuesMap-inl.h:45-50 | The heap starts with exactly the non-empty shards |
| KWayMerge.MakeHeap | fb303/CallbackValuesMap-inl.h:51-55 | make_heap with the reversed comparison gives a min-heap by first name of the same runs |
| KWayMerge.DownHeap | fb303/CallbackValuesMap-inl.h:73-75 | down_heap restores the heap below a top that may be out of place, and loses no run |
| KWayMerge.RootIsLeast | fb303/CallbackValuesMap-inl.h:51-59 | The top run's first name is at or before every other run's |
| KWayMerge.BelowIff | fb303/CallbackValuesMap-inl.h:51-55 | The order of names is the lexicographic one: a proper prefix comes first, and otherwise the first character that differs decides |
| KWayMerge.VisitBehind | fb303/CallbackValuesMap-inl.h:67-69 | After a visit, all that is left comes at or after what was visited |
| FormattedKeysProof.ReturnsItsOwnFormat | fb303/ThreadCachedServiceData.h:732-758 | In every run, what is returned for subkeys is the format of their texts, with an object cached for that key; which texts those are, and that they are the subkeys asked for, is the next two rows |
| Decimals.IntTextIff | fb303/ThreadCachedServiceData.h:560-572 | The text of an integer subkey, or of a window: the one numeral without leading zeros that reads as its magnitude, after a minus sign exactly when it is negative |
| FormattedKeysCalls.ReturnAnswersItsCall | fb303/ThreadCachedServiceData.h:732-758 | Every result of a run is that of a call: some action asked for those very subkeys on the thread that returned it, idle before and in that one call until the step that returned |
| FormattedKeysCalls.GetReturns | fb303/ThreadCachedServiceData.h:732-821 | A call, with no other thread holding the upgrade lock and nothing thrown, returns by itself in at most seven steps, and its thread remembers the array as its last one |
| FormattedKeysCalls.LastIsGotAtOnce | fb303/ThreadCachedServiceData.h:732-740 | The array that a thread got last it gets again in one step of its own, whoever holds the upgrade lock, and nothing shared changes |
| FormattedKeysCalls.ErasedIsLookedUpAgain | fb303/ThreadCachedServiceData.h:722-728 | An array that a thread erased is found, next time, in neither its last item nor its own map, and its other slots stay |
| FormattedKeysProof.LastAgrees | fb303/ThreadCachedServiceData.h:740-757 | The last-found item is null, or carries its own array's hash and the very slot the thread's map has for that array |
| FormattedKeysProof.LastHitIsAMapHit | fb303/ThreadCachedServiceData.h:736-741 | A hit on the last-found item gives what the thread's map would, whatever hashes collide |
| FormattedKeysProof.PreparedOnce | fb303/ThreadCachedServiceData.h:787-821 | Among the prepareKey calls for one array, on any threads, at most one returns and none follows it, so without exceptions there is at most one |
| FormattedKeysProof.PreparedBeforeUse | fb303/ThreadCachedServiceData.h:810-820 | A key that was ever returned has been prepared |
| FormattedKeysProof.EraseKeeps | fb303/ThreadCachedServiceData.h:722-728 | eraseFormattedKey() drops the thread's slot and the last-found item and disturbs nothing else |
| FormattedKeysProof.PermutedSubkeysCollide | fb303/ThreadCachedServiceData.h:507-515 | Swapping two subkeys leaves the xor-ed hash unchanged |
| FormattedKeysProof.TextsCoincideIff | fb303/ThreadCachedServiceData.h:560-572 | Two arrays of one length give the format the same texts exactly when they differ only by integers against their decimal texts |
| Formats.KeysEqualIff | fb303/ThreadCachedServiceData.h:560-602 | For any literal pieces and any number of placeholders filled in order: two lists of texts give one key exactly when one can be shifted into the other across the pieces |
| Formats.TwoEqualIff | fb303/ThreadCachedServiceData.h:560-602 | With two placeholders: exactly when a part of one's second text moves to the first, across the piece between |
| Formats.SeparatedTellApart | fb303/ThreadCachedServiceData.h:560-602 | Texts that lack the first character of every piece between them, none of these empty, give one key only when they are the same |
| Formats.TellsApartIff | fb303/ThreadCachedServiceData.h:560-602 | A format tells all its texts apart exactly when it has at most one placeholder |
| FormattedKeysProof.KeysCoincideIff | fb303/ThreadCachedServiceData.h:560-602 | Two arrays of one length share a key under any format if they have the same texts, and, placeholders filled in order, exactly when their texts shift into one another |
| FormattedKeysProof.SeparatedKeysCoincideIff | fb303/ThreadCachedServiceData.h:560-602 | With one subkey, or texts separated by the pieces, they share one exactly when they differ only by integers against their decimal texts |
| FormattedKeysProof.PairKeysCoincideIff | fb303/ThreadCachedServiceData.h:560-602 | With two subkeys they share one exactly when a part of one's second text moves to the first |
| FormattedKeysProof.PreparedKeyRepeatsIff | fb303/ThreadCachedServiceData.h:810-820 | Two prepareKey calls that returned had distinct arrays, and repeat a key exactly when the texts of these shift into one another |
| FormattedKeysProof.PairsMayShareAKey | fb303/ThreadCachedServiceData.h:1390-1396 | Under the sample format with two placeholders, ("a.b", "c") and ("a", "b.c") share the key bar.a.b.c |
| FormattedKeysProof.ArraysMayShareAKey | fb303/ThreadCachedServiceData.h:560-572 | An integer subkey and its decimal text give distinct arrays one formatted key, under any format |
| QuantileMap.BaseIsRecoverable | fb303/detail/QuantileStatMap-inl.h:307-332 | The base can be read back off any key makeKey() builds: it ends at the last point followed by a letter |
| QuantileMap.FamiliesAreDisjoint | fb303/detail/QuantileStatMap-inl.h:307-332 | Two bases have no derived name in common |
| QuantileMap.NamesCoincideIff | fb303/detail/QuantileStatMap-inl.h:307-332 | Two derived names are equal exactly when their bases are equal and they are one export over one window, or one is an all-time percentile whose text is the other's text, a point and the other's window |
| QuantileMap.NamesCanCoincide | fb303/detail/QuantileStatMap-inl.h:317-320 | One such pair: p99 over a 9 second window and p99.9 |
| QuantileMap.KeyTexts | fb303/detail/QuantileStatMap-inl.h:307-332 | The text of every derived name, export by export, for all time and for a window |
| QuantileMap.QuantileStatMap.RegisterQuantileStat | fb303/detail/QuantileStatMap-inl.h:223-273 | A new base adds exactly its family, first entry of a name winning; a registered base changes nothing and yields the stat registered first |
| QuantileMap.EntriesIff | fb303/detail/QuantileStatMap-inl.h:238-259 | A base's family has one entry for each stat def for all time and over each of the stat's windows, named for it, and no others |
| QuantileMap.FirstEntryWins | fb303/detail/QuantileStatMap-inl.h:266-271 | Of the entries of one name, the first is the one that the map gets |
| QuantileMap.QuantileStatMap.AddFamily | fb303/detail/QuantileStatMap-inl.h:262-272 | The part under the exclusive lock re-checks the base, so whichever thread comes second gets the first one's stat |
| QuantileMap.QuantileStatMap.ForgetStatsFor | fb303/detail/QuantileStatMap-inl.h:276-304 | Takes away exactly the base's family and the base |
| QuantileMap.QuantileStatMap.ForgetAll | fb303/detail/QuantileStatMap.h:116-120 | Empties names and bases |
| QuantileMap.NamesAreTheUnion | fb303/detail/QuantileStatMap-inl.h:266-271 | The map's names are always the union of the registered bases' families |
| QuantileMap.ForgetUndoesRegister | fb303/detail/QuantileStatMap-inl.h:276-304 | Registering a base and then forgetting it restores the map |

## Left out

- Weak memory: acquire, release and relaxed orderings are sequentially consistent single-word steps; back-off, yields and progress under contention are not modelled.
- The sequence number's wrap at 2^64 and more than 2^63 updates of one series: fewer are required, as the source assumes.
- Failure to allocate the surplus block, or anything else, and exceptions thrown while a lock is held, other than a throwing regex match, prepareKey or cached-object function.
- Registry: a stat's reset() is one step that takes a window; `SeriesWindows` justifies it for time series, and for counters it is one atomic exchange.
- Registry: the flag that a sweep reads before it takes the lock. A modelled sweep may start whatever the flag says; `EmptyFlag` states what skipping would miss.
- link() racing the destruction of its own container, which the source declares undefined; in the model destruction waits for links in progress.
- Values added to a stat that is not linked, and the global stat a moved-from counter would name.
- Global stats beyond an all-time count and sum: buckets, levels, decay, histograms, digests and quantile estimates.
- Time in the regex cache: a purge evicts any set of regexes, whatever their access times.
- The order and hints of names within one answer or one map; hash tables are maps and sets, and getValues()'s sorting of each shard is the merge's precondition.
- The width of the LRU map's hit and miss counters, its hit ratio and reserve(), and the throwing wrappers around find, try_set and try_get_or_create.
- A merged entry's value is what its callback gives when it is visited; a callback that changes the map is not modelled.
- Key formats with placeholders that are numbered or carry a specification: all results hold of them but those that say exactly when keys coincide.
- fmt's formatting of doubles: a quantile is the text {:g} gives for it, of which only "a point is followed by a digit" is used.
- extractValue() and the getters of the quantile stat map, which compute on estimates.
- ServiceData's combined getters, exporters, options, Thrift service plumbing, executors, logging handlers, the publish threads and TFunctionStatHandler.
