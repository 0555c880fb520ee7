# A verified model of aioworkers

Dafny modules that model the stateful core of aioworkers and prove what it is for. `dafny verify
dfyconfig.toml` checks the whole project.

**The timestamp queue** (`queue_*.dfy`, `timestamp_queue.dfy`). `TimestampQueue` and `UniqueQueue` are one
state machine whose steps are the code segments between two awaits: `put`, `get`, a fired `_on_time` or
`_on_timeout`, the cancellation of a waiting task, the advance of the clock. The two classes differ only in
the methods `UniqueQueue` overrides, so one `Config.unique` flag stands for dynamic dispatch. `QueueSpec`
gives each segment as a function, the class `TimestampQueue` writes it as the source does and is proved to
agree, and `QueueRuns` proves the properties of whole runs: no lost wakeup, conservation, back-pressure,
order, no early and no double delivery. `QueueArrival` proves that waiting calls are served first come, first
served, `QueueSizes` when a `put` blocks, `QueuePromises` what a waiting `get` gets, and `QueueMap` that every
run of `UniqueQueue` is a run of a map from values to timestamps. `heapq` is any function of the entries in
their order that picks a minimum; `is` compares item identities; time is one exact clock.

**The configuration tree** (`config_*.dfy`, `merge_dict.dfy`, `config.dfy`). `MergeDict` is a heap class with
an ownership set: nested mappings are objects of their own, shared with nobody. Its methods refine functions
on trees, and on those functions stand the laws of layering, of dotted keys and of environment overrides.
`ConfigEffect` gives raw data a meaning independent of the configuration it is loaded into, which yields exact
conditions for the laws that do not hold of all data; `ConfigDeclare` says which paths are declared to come
from the environment.

**Layered views** (`layers.dfy`, `layer_order.dfy`): `ValueExtractor.new_child`, `new_parent`, lookup and
iteration.

**The worker life cycle** (`worker*.dfy`): a runner cut at its awaits, interleaved with any number of `start`
and `stop` calls and cancellations of the latter; an awaited operation may return, raise, be cancelled, or
swallow a cancellation. `WorkerStops` says where a runner goes and what `start` and `stop` bring about.

**Formatter pipelines** (`formatter*.dfy`, `registry.dfy`), **the future storage** (`future_*.dfy`) and **unit
expressions** (`humanize.dfy`).

Functions whose only content is their body are not listed below; the members listed state what those functions
mean.

## What the proofs brought out

- A value that `UniqueQueue.put` hands straight to a waiting getter never reaches the index, so an older entry
  of the same value stays queued and is delivered again later (`QueueUnique.PutOnMap`,
  `QueueMap.BypassDeliversTwice`).
- Merging is not associative. The grouping of layers shows exactly where a plain value of the middle layer
  separates two mappings and the last mapping does not cover the first (`ConfigMerge.LayeringExactly`,
  `ConfigMerge.GroupingMatters`).
- A declared environment variable wins at its own path, whatever the updates contain, if the last of them
  returned and no later declaration at a path above, below or equal to it is also set; otherwise the last of
  those decides (`ConfigEnv.EnvironmentWinsExactly`). An update that raises halfway, as at a key with `!` at
  the end of an inner segment, loses the overrides (`ConfigWitnesses.FailingLoadLosesOverride`). That a
  variable shows nowhere else is false of data that spells one mapping in two ways and replaces part of it
  with `!`: an existing mapping is updated with the raw keys, a new one is normalised first
  (`ConfigWitnesses.ContradictoryLoadsInterfere`). It holds exactly of loads that, on the way to a path, make
  of a missing mapping what they make of an empty one (`ConfigEffect.OverridesShowExactly`), in particular of
  all data with undotted keys that do not end with `!` (`ConfigEffect.OrdinaryMerges`,
  `ConfigEffect.MergesAreLocal`).
- `parse_size` skips a unit that is set off by a space, the form in which `size` prints: `500 bytes` is read
  back, and `1 KB` is 1 (`Humanize.SpacedUnitReadsBackExactly`).
- A graceful `stop` spares `work` unless it is itself cancelled while it waits: the cancellation goes on to
  the runner (`WorkerRuns.GracefulRunsAreUncut`, `WorkerRuns.CancelledStopCuts`).
- A new child of a registry does not resolve everything its parent does: a parent's name with a separator in
  it is out of reach, because `get` cuts a specification before it asks the parents. It resolves alike exactly
  those specifications whose cutting meets no such name (`FormatterLaws.ChildResolvesExactly`,
  `FormatterLaws.SeparatedNamesAreHidden`).

## Model

| member | source | states |
|---|---|---|
| QueueRuns.RunKeepsInv | aioworkers/queue/timeout.py:78-164 | every run of calls, callbacks, cancellations and clock ticks, in any order, keeps the wakeup, conservation, back-pressure and future invariants together |
| QueueRuns.ReachableInv | aioworkers/queue/timeout.py:24-30 | every state reachable from a new queue satisfies those invariants |
| QueueRuns.NoLostWakeup | aioworkers/queue/timeout.py:78-103 | in every reachable state with a queued getter and a live item, a pending `_on_time` callback has a deadline at or before that item's timestamp |
| QueueRuns.QuietMeansServed | aioworkers/queue/timeout.py:155-164 | once no pending callback is due, no unfinished getter exists while a live item is due |
| QueueRuns.DrainingTerminates | aioworkers/queue/timeout.py:155-164 | running due callbacks terminates: a sequence of them is exactly as long as the number of due callbacks it disposes of |
| QueueRuns.OnTimeArmsLater | aioworkers/queue/timeout.py:155-164 | `_on_time` registers callbacks for later than now only |
| QueueRuns.NothingIsLost | aioworkers/queue/timeout.py:87-164 | conservation on every run: copies of an entry put = live copies + copies overwritten by a later put of the same value + copies returned by `get` or handed to a getter; the plain queue overwrites nothing |
| QueueRuns.BackPressure | aioworkers/queue/timeout.py:73-76 | with a positive `maxsize`, length <= `maxsize` - 1 + blocked putters, and whenever the queue is not full every call that ever blocked has been released |
| QueueRuns.NeverEarly | aioworkers/queue/timeout.py:87-98 | every delivery ever made was due at that moment, its future holds exactly that value (and score if asked for), and no future got two |
| QueueRuns.GetReturnsMinimum | aioworkers/queue/timeout.py:87-98 | what `get` returns at once was live, is due, and nothing live left behind is earlier |
| QueueRuns.NobodyOvertakes | aioworkers/queue/timeout.py:87-103 | while an unfinished getter waits and no callback is due, a new `get` does not return at once |
| QueueRuns.TimerServesInOrder | aioworkers/queue/timeout.py:155-164 | a fired `_on_time` serves the unfinished getters in arrival order with nondecreasing due timestamps and stops only when nobody waits or nothing is due |
| QueueRuns.SettledForGood | aioworkers/queue/timeout.py:105-120 | over any run, whatever future is settled keeps its outcome and the history of deliveries only grows |
| QueueRuns.CleanupSettlesAll | aioworkers/queue/timeout.py:49-57 | `cleanup` cancels exactly the futures of getters and putters that were pending, leaves both lines empty, changes no settled future and loses no entry |
| QueueArrival.NewcomerIsLast | aioworkers/queue/timeout.py:99-103 | a `get` that waits is last in line, everybody before it stays in front, and its future was handed out after every other |
| QueueArrival.ReachableLine | aioworkers/queue/timeout.py:99-112 | in every reachable state the line is in the order in which its futures were handed out |
| QueueArrival.StepServesInArrivalOrder | aioworkers/queue/timeout.py:109-120 | over one event of any kind, of two waiting calls the later one is not given an item while the earlier one keeps waiting |
| QueueArrival.ServedInArrivalOrder | aioworkers/queue/timeout.py:99-120 | the same over every run: if the later one ends up with an item, the earlier one waits no longer |
| QueueSizes.BlockedMeansAtTheLimit | aioworkers/queue/timeout.py:73-76 | in every reachable state somebody is blocked in `put` only if 0 < `maxsize` <= the number of entries, and below the limit, or without one, everybody ever blocked has been released |
| QueueSizes.PutBlocksExactly | aioworkers/queue/timeout.py:131-148 | a `put` blocks if and only if it keeps its entry and then 0 < `maxsize` <= the number of entries |
| QueueSizes.PutCounts | aioworkers/queue/timeout.py:131-134 | for both classes, the entry a `put` enters has the score given, or else the current time plus `add_score` |
| QueueSizes.PlainLength | aioworkers/queue/timeout.py:67-71 | on every run the length of the plain queue is the number of entries put less the number delivered, and it is empty exactly if they are equal |
| QueueSizes.TimersBounded | aioworkers/queue/timeout.py:78-85 | on every run there are no more pending `_on_time` callbacks than there were puts: rescheduling makes no second one |
| QueuePromises.GetIsAnswered | aioworkers/queue/timeout.py:87-107 | a `get` that waits is settled, over any run that follows, only by an answer with or without score as asked, by its own timeout and not before its deadline, or as cancelled if its task was cancelled; once no timeout is due it does not wait past its deadline |
| QueuePromises.RunKeeps | aioworkers/queue/timeout.py:87-120 | every run keeps that promise to every waiting call |
| QueueWakeup.StepKeepsWakeup | aioworkers/queue/timeout.py:78-164 | each step keeps: a live item that may need one has a timer by its timestamp, and every scheduled live item has its own |
| QueueWakeup.OnTimeRestoresWakeup | aioworkers/queue/timeout.py:155-164 | an `_on_time` run re-establishes the wakeup invariant although the timer that caused it is gone |
| QueueWakeup.RescheduleCovers | aioworkers/queue/timeout.py:78-98 | putting back an item that is not due yet leaves a timer for it and everything behind it |
| QueueAccounting.StepAccounts | aioworkers/queue/timeout.py:87-164 | every step keeps the sum of live, overwritten and delivered copies of each entry, but for the one copy a `put` adds |
| QueueAccounting.OnTimeAccounts | aioworkers/queue/timeout.py:155-164 | `_on_time`, through failed sends and rescheduling, neither loses nor duplicates an entry |
| QueueAccounting.StepKeepsPressure | aioworkers/queue/timeout.py:131-153 | every step keeps the bound on the length and that a blocked putter implies a full queue |
| QueueFutures.StepKeepsFutures | aioworkers/queue/timeout.py:87-164 | every step keeps: an unsettled getter is in line exactly once, a blocked putter is exactly one in line, and each settled getter matches exactly one due delivery |
| QueueFutures.StepOnlySettles | aioworkers/queue/timeout.py:105-164 | no step changes a settled future |
| QueueFutures.SendServesFirst | aioworkers/queue/timeout.py:109-120 | `_send` gives the item to the first getter still waiting and fails exactly when there is none |
| QueueFutures.OnTimeServes | aioworkers/queue/timeout.py:155-164 | one `_on_time` run, for any state with a sound heap: who is served, in which order, with what, and why it stops |
| QueueHeap.PopTakesMinimum | aioworkers/queue/timeout.py:122-126 | `_pop` returns None exactly when nothing is live, and otherwise removes one live item of least timestamp and leaves all others live |
| QueueHeap.PopRemovesOne | aioworkers/queue/timeout.py:172-177 | `_pop` of either class removes exactly one copy of one entry, stale heap entries notwithstanding |
| QueueHeap.PutItemIsLive | aioworkers/queue/timeout.py:128-129 | `_put` makes its item live and ends the life of exactly the item of the same value it displaces |
| QueueHeap.PutItemAddsOne | aioworkers/queue/timeout.py:179-181 | live plus overwritten copies grow by exactly the item put |
| QueueUnique.PutIsAssignment | aioworkers/queue/timeout.py:179-181 | `_put` of the unique queue is assignment in the map from value to timestamp |
| QueueUnique.LenIsSize | aioworkers/queue/timeout.py:183-187 | `len` is the size of that map and `empty` is its emptiness |
| QueueUnique.PopIsDeleteMin | aioworkers/queue/timeout.py:172-177 | `_pop` deletes and returns an entry of least timestamp of the map, or None exactly when the map is empty |
| QueueUnique.PutBackIsInvisible | aioworkers/queue/timeout.py:78-85 | popping an item and putting it back, rescheduled or not, leaves the map as it was |
| QueueUnique.PutOnMap | aioworkers/queue/timeout.py:131-148 | `put` assigns in the map, except when it hands a past-dated value straight to a waiting getter: then the map keeps what it has |
| QueueUnique.GetOnMap | aioworkers/queue/timeout.py:87-103 | `get` deletes and returns a least entry if it is due, and otherwise changes nothing in the map and nothing in it is due |
| QueueUnique.OnTimeOnMap | aioworkers/queue/timeout.py:155-164 | `_on_time` deletes from the map exactly the entries it delivers, each a least and due one when it leaves |
| QueueUnique.QuietOnMap | aioworkers/queue/timeout.py:105-107 | timeouts, cancellations and the clock leave the map alone |
| QueueMap.StepOnMap | aioworkers/queue/timeout.py:167-187 | every event moves the map as the map machine allows, and what is delivered is what leaves it |
| QueueMap.RunRefinesMap | aioworkers/queue/timeout.py:167-187 | every run from a sound state is a run of the map machine with the same deliveries |
| QueueMap.UniqueQueueIsMap | aioworkers/queue/timeout.py:167-187 | every run of a new unique queue is a run of the map machine from the empty map, with the same deliveries |
| QueueMap.BypassDeliversTwice | aioworkers/queue/timeout.py:135-138 | a concrete run in which a value handed straight to a getter is delivered again from the older entry |
| TimestampQueues.TimestampQueue.constructor | aioworkers/queue/timeout.py:24-30 | a new queue is the initial state |
| TimestampQueues.TimestampQueue.IsEmpty | aioworkers/queue/timeout.py:70-71 | emptiness of whichever structure the class counts |
| TimestampQueues.TimestampQueue.IsFull | aioworkers/queue/timeout.py:73-76 | full exactly if `maxsize` is positive and reached |
| TimestampQueues.TimestampQueue.HeapPop | aioworkers/queue/timeout.py:124 | removes and returns one element of least timestamp |
| TimestampQueues.TimestampQueue.PopItem | aioworkers/queue/timeout.py:172-177 | the loop over stale heap entries ends in the state and with the item that `QueueSpec.PopFrom` gives |
| TimestampQueues.TimestampQueue.Push | aioworkers/queue/timeout.py:179-181 | heap, index and history afterwards |
| TimestampQueues.TimestampQueue.ScheduleItem | aioworkers/queue/timeout.py:78-85 | an item not yet scheduled is replaced by a scheduled one and gets a timer; a scheduled one only goes back |
| TimestampQueues.TimestampQueue.ReleasePutter | aioworkers/queue/timeout.py:150-153 | the loop releases everybody in line if the queue is not full, and nobody otherwise |
| TimestampQueues.TimestampQueue.SendItem | aioworkers/queue/timeout.py:109-120 | the loop over the line of getters does what `QueueSpec.Send` says |
| TimestampQueues.TimestampQueue.GetItem | aioworkers/queue/timeout.py:87-103 | `get` up to its await: the whole new state, and what it returns at once, with the timestamp if asked for |
| TimestampQueues.TimestampQueue.AwaitItem | aioworkers/queue/timeout.py:99-103 | the new waiter is last in line, with a timeout callback if a nonzero timeout was given |
| TimestampQueues.TimestampQueue.HandOverOrStore | aioworkers/queue/timeout.py:135-143 | the item is handed over, or kept, as `put` does |
| TimestampQueues.TimestampQueue.AwaitRoom | aioworkers/queue/timeout.py:144-148 | the caller blocks after inserting, exactly if the queue is full |
| TimestampQueues.TimestampQueue.PutValue | aioworkers/queue/timeout.py:131-148 | `put` up to its await: the whole new state |
| TimestampQueues.TimestampQueue.RunOnTime | aioworkers/queue/timeout.py:155-164 | the loop of `_on_time` does what `QueueSpec.OnTime` says |
| TimestampQueues.TimestampQueue.Fire | aioworkers/queue/timeout.py:85 | a due callback is used up and runs `_on_time` |
| TimestampQueues.TimestampQueue.RunOnTimeout | aioworkers/queue/timeout.py:105-107 | a timeout settles a pending getter and nothing else |
| TimestampQueues.TimestampQueue.CancelGetters | aioworkers/queue/timeout.py:49-53 | the first loop of `cleanup` cancels the getters in line that are not done |
| TimestampQueues.TimestampQueue.RunCleanup | aioworkers/queue/timeout.py:49-57 | `cleanup`: the whole new state |
| ConfigMerge.LayeringExactly | aioworkers/core/config.py:60-93 | merging b and then c into a equals merging b-with-c into a if and only if c covers a wherever a plain value of b separates mappings of a and c |
| ConfigMerge.RegroupsExactly | aioworkers/core/config.py:60-93 | the same condition as a recursion over the three trees |
| ConfigMerge.CoversMeansOverridden | aioworkers/core/config.py:60-93 | c covers a if and only if merging c into a leaves exactly c |
| ConfigMerge.GroupingMatters | aioworkers/core/config.py:60-93 | a concrete a, b, c for which the grouping of the layers shows |
| ConfigMerge.MergeTwice | aioworkers/core/config.py:91-93 | merging the same tree twice is merging it once |
| ConfigMerge.LookupMerge | aioworkers/core/config.py:60-93 | what a merge holds at any path, from what the two sides hold there and whether a plain value cuts the path |
| ConfigWrite.DottedKeyIsNestedUpdate | aioworkers/core/config.py:60-93 | writing the dotted spelling of a path, plain value or mapping, into any contents is updating with the nested mapping |
| ConfigWrite.DottedWriteIsNestedUpdate | aioworkers/core/config.py:70-81 | the same for the path itself |
| ConfigWrite.PathTreeIsMerge | aioworkers/core/config.py:60-93 | writing a `MergeDict` along a path is merging the nested tree |
| ConfigWrite.SetPathWrites | aioworkers/core/config.py:70-81 | a written plain value is there afterwards and no incomparable path changed, with and without `!` |
| ConfigWrite.WriteReadsBack | aioworkers/core/config.py:60-109 | `d[k1.k2...kn] = v` reads back as a plain `v`, and every path neither prefix nor extension of it is unchanged |
| ConfigWrite.ParseJoin | aioworkers/core/config.py:60-70 | the dotted spelling of a path of plain names is parsed back to that path |
| ConfigWrite.WalkFinds | aioworkers/core/config.py:101-117 | reading along a path finds exactly what the tree holds and fails exactly when nothing is there |
| ConfigWrite.ReplaceReplaces | aioworkers/core/config.py:83-89 | an undotted key with `!` replaces whatever was there |
| ConfigWrite.ReplaceReplacesTree | aioworkers/core/config.py:83-89 | the same with a `MergeDict`, and hence within data that are being normalised |
| ConfigWrite.BangsAreStripped | aioworkers/core/config.py:60-70 | a key with a final `!` is the path without it, to be replaced, and any `!` in front goes with it |
| ConfigWrite.BangInFrontStays | aioworkers/core/config.py:61-63 | a `!` in front alone belongs to the name |
| ConfigWrite.DottedBangMerges | aioworkers/core/config.py:70-81 | a dotted key with `!` does not replace a mapping: what it writes is merged in |
| ConfigWrite.WalkFailsExactly | aioworkers/core/config.py:101-109 | where reading stops short of the end of a path, it raises `KeyError` at a mapping without the next key and `TypeError` at a plain value |
| ConfigWrite.BrokenAtEntry | aioworkers/core/config.py:70-93 | of a load that raises, the entries before the one that cannot be written are written and those after it are not |
| ConfigWrite.BrokenStaysBelow | aioworkers/core/config.py:70-81 | that entry leaves no trace outside the mapping its first segment names |
| ConfigWrite.BrokenBelow | aioworkers/core/config.py:70-93 | below a key whose mapping cannot be loaded, a mapping that is there has what could be loaded before the failure, and anything else stays as it is |
| ConfigEffect.UpdateActs | aioworkers/core/config.py:60-93 | loading raw data into any configuration is applying the effect computed from the data alone |
| ConfigEffect.ComposeApplies | aioworkers/core/config.py:91-93 | one write after another is the composition of their effects, at every place |
| ConfigEffect.Canonical | aioworkers/core/config.py:60-93 | two effects are equal if and only if they act the same on everything |
| ConfigEffect.LoadIsMergeExactly | aioworkers/core/config.py:34-93 | loading raw data is merging its normal form into every configuration if and only if their effects agree |
| ConfigEffect.OrdinaryMerges | aioworkers/core/config.py:34-93 | nested data with undotted keys, none twice and none with `!`, always loads as a merge |
| ConfigEffect.MergesAreLocal | aioworkers/core/config.py:641-646 | a load that acts as a merge is local at every path |
| ConfigEffect.OverridesShowExactly | aioworkers/core/config.py:641-646 | an override at one path is invisible at an incomparable path after a further load, for every configuration, if and only if the load is local there |
| ConfigEnv.EnvironmentWinsExactly | aioworkers/core/config.py:620-646 | after any sequence of updates the last of which returned, with any contents and any other declarations, a declared path outside `logging` whose variable is set reads as that value if and only if the last such declaration comparable with it has the same path and the same value |
| ConfigEnv.EnvironmentWins | aioworkers/core/config.py:620-646 | in particular, if the last update returned, it reads as that value if no later such declaration is comparable with it |
| ConfigEnv.OverridesDecide | aioworkers/core/config.py:639-646 | what the last override comparable with a path leaves there: its value, nothing below its own path, a mapping above it |
| ConfigEnv.OverridesStayInPlace | aioworkers/core/config.py:620-646 | after any sequence of updates that return and are local at a path, a path incomparable with every override applied reads as plain loading would give |
| ConfigEnv.OverridesElsewhere | aioworkers/core/config.py:639-646 | applying the overrides changes no path incomparable with those whose variable is set |
| ConfigEnv.UpdatesExtend | aioworkers/core/config.py:620-639 | a declaration is never forgotten by a later update, and no key is ever declared twice |
| ConfigDeclare.DeclaredExactly | aioworkers/core/config.py:620-639 | after a load a key is bound to the name in its last declaration there, those under `env.` counting last, and otherwise as before; a declaration is a plain value together with the keys on the way to it |
| ConfigDeclare.KeyIsJoin | aioworkers/core/config.py:623-624 | the key of a path without empty segments is its dotted spelling |
| ConfigDeclare.PathDeclares | aioworkers/core/config.py:620-638 | both ways to nest the declaration of a path, under `env` and under `env.` with its first segment, declare that path and nothing else |
| ConfigDeclare.BindNames | aioworkers/core/config.py:628 | declaring a key again replaces its name and touches no other |
| ConfigDeclare.BindKeepsPlaces | aioworkers/core/config.py:628 | a key declared again keeps its place among the declarations, a new one comes last |
| ConfigDeclare.PlainEnvChangesNothing | aioworkers/core/config.py:620-646 | an update changes nothing at all if it finds a plain value under `env`; every other one takes note of its declarations, whether or not its data can be loaded |
| ConfigDeclare.OverridesExactly | aioworkers/core/config.py:639-646 | the overrides written to the tree are those declared keys, not of logging, whose variable is set, with its value |
| ConfigDeclare.SettingsExactly | aioworkers/core/config.py:589-638 | the data loaded are all entries but declarations and logging settings |
| ConfigDeclare.DeclaredReadsBack | aioworkers/core/config.py:620-669 | a path declared in either of these ways reads as its variable, whatever is loaded later |
| ConfigWitnesses.FailingLoadLosesOverride | aioworkers/core/config.py:70-74 | a concrete update that raises halfway, at a key with an inner `!`, and leaves a declared path with the loaded value instead of its variable's |
| ConfigWitnesses.ContradictoryLoadsInterfere | aioworkers/core/config.py:641-646 | two concrete updates after which a path reads differently because of an override at an incomparable one |
| MergeDicts.MergeDict.constructor | aioworkers/core/config.py:34-40 | a new object owns only itself and stands for the empty mapping |
| MergeDicts.MergeDict.Set | aioworkers/core/config.py:60-89 | `__setitem__`: also with an object of this very tree, as long as it is not merged into a mapping it contains or overlaps, the object still owns a tree of objects shared with nobody, only what the key opens and new objects changed, it stands for exactly what the specification says, and a value outside what was opened is intact |
| MergeDicts.MergeDict.SetAlong | aioworkers/core/config.py:70-81 | the dotted branch, plain values on the path replaced by new mappings |
| MergeDicts.MergeDict.SetLast | aioworkers/core/config.py:76-81 | the three ways the last segment is written |
| MergeDicts.MergeDict.AssignItem | aioworkers/core/config.py:83-89 | the undotted branches: the nested object stays and is merged into, or a copy of new objects only is stored, or a plain value |
| MergeDicts.MergeDict.UpdateKid | aioworkers/core/config.py:83-84 | a nested object is updated in place: it stays the object under its key, and the tree above it follows |
| MergeDicts.MergeDict.MakeKid | aioworkers/core/config.py:72-73 | a new empty mapping of its own takes the place of nothing or of a plain value |
| MergeDicts.MergeDict.SetBelowNew | aioworkers/core/config.py:71-74 | the path goes on in a mapping made for it |
| MergeDicts.MergeDict.UpdateFrom | aioworkers/core/config.py:91-93 | `update` from raw data in order, or from a `MergeDict` in any order: the functional update or the deep merge, the argument intact |
| MergeDicts.MergeDict.UpdateMade | aioworkers/core/config.py:91-93 | taking the entries of another `MergeDict`, even one of this tree, in whatever order is the deep merge, and leaves that one as it was |
| MergeDicts.MergeDict.UpdateMixed | aioworkers/core/config.py:119-125 | taking the entries of a plain dict that may hold `MergeDict` objects, in order: each is written as `Set` says and the objects stay as they were |
| MergeDicts.MergeDict.UpdateSelf | aioworkers/core/config.py:91-93 | updating an object with itself changes nothing |
| MergeDicts.MergeDict.UpdateRaw | aioworkers/core/config.py:119-125 | taking the entries of raw data in order |
| MergeDicts.MergeDict.Copy | aioworkers/core/config.py:34-45 | `type(self)(value)`: an equal tree that consists of new objects only |
| MergeDicts.MergeDict.CopyRaw | aioworkers/core/config.py:34-45 | the loop of `__init__` over raw data |
| MergeDicts.MergeDict.CopyMade | aioworkers/core/config.py:34-45 | the loop of `__init__` over a `MergeDict`: an equal tree, no object shared |
| MergeDicts.MergeDict.StoreDict | aioworkers/core/config.py:86-89 | storing an object nobody else holds keeps the tree shape |
| MergeDicts.MergeDict.GetCell | aioworkers/core/config.py:101-109 | `__getitem__`: the plain value, the very nested object, or the exception that the walk over the tree predicts |
| MergeDicts.MergeDict.HasItem | aioworkers/core/config.py:111-117 | true exactly if reading succeeds |
| Configs.ConfigObject.BindName | aioworkers/core/config.py:628 | assignment in the ordered dict of declarations |
| Configs.ConfigObject.Flater | aioworkers/core/config.py:621-628 | nested declarations are entered under their dotted paths |
| Configs.ConfigObject.CollectEnv | aioworkers/core/config.py:630-638 | declarations under `env` and under keys starting with `env.` |
| Configs.ConfigObject.CheckEnv | aioworkers/core/config.py:630-631 | a plain value under `env` raises |
| Configs.ConfigObject.UpdateWith | aioworkers/core/config.py:641-646 | `_update` on the heap does what `ConfigEnv.UpdateConfig` says, and changes nothing when it raises |
| Layers.LayeredLookup | aioworkers/core/config.py:430-482 | any sequence of `new_child` and `new_parent` fails exactly if an argument is no mapping, and otherwise looks every key up as the first match in the order of priority asked for |
| Layers.ApplyAllShows | aioworkers/core/config.py:453-465 | the stack after any such sequence is the requested one with each object at its first place only |
| Layers.OntoAbsorbs | aioworkers/core/config.py:436-446 | dropping repeated objects early or late makes no difference |
| Layers.OntoLooksAlike | aioworkers/core/config.py:436-446 | dropping a repeated object changes no lookup |
| LayerOrder.MatchIsFirst | aioworkers/core/config.py:467-482 | a key is read from the first layer that holds it, and is missing if and only if none does |
| LayerOrder.ChildrenAndParents | aioworkers/core/config.py:453-465 | `new_child` reads its arguments in order, then its keywords, then the view; `new_parent` the view first, then arguments and keywords |
| LayerOrder.IterationGrows | aioworkers/core/config.py:519-536 | the layer with the highest priority adds its keys last and in order, unless it is the only `MergeDict`: then its keys come first and the others add theirs |
| Layers.IterationCovers | aioworkers/core/config.py:516-538 | a stack yields every key it has a value for exactly once, as many as `len` counts, and the keys of the lowest `MergeDict` first |
| Layers.Iterate | aioworkers/core/config.py:519-538 | `__iter__` yields distinct keys, as many as `len` counts, exactly those that have a value |
| Layers.IterateChain | aioworkers/core/config.py:520-536 | the two loops yield the keys in the specified order |
| Layers.AddAll | aioworkers/core/config.py:533-536 | keys not seen yet, layer by layer |
| Layers.MappingFactory | aioworkers/core/config.py:431-446 | the loop over an insertion-ordered dict from identities keeps each object at its first place, and raises exactly on what is no mapping |
| WorkerRuns.RunKeepsInv | aioworkers/worker/base.py:91-179 | every interleaving of runner steps, `start`, graceful and forced `stop` keeps the invariant |
| WorkerRuns.AtMostOneRunner | aioworkers/worker/base.py:148-160 | two unfinished runners never exist, and the unfinished one is the one `_future` holds |
| WorkerRuns.SleepingMeansIdle | aioworkers/worker/base.py:91-129 | while `_is_sleep` is true no runner is inside `work` |
| WorkerRuns.GracefulStopSparesWork | aioworkers/worker/base.py:162-179 | `stop(force=False)` cancels only outside `work`, and a runner it cancelled ends without entering `work` again |
| WorkerRuns.CountersAddUp | aioworkers/worker/base.py:91-125 | done <= run <= done + error + cancelled runs + 1; with an input, run = inputs taken; outputs handed over <= done |
| WorkerRuns.GracefulRunsAreUncut | aioworkers/worker/base.py:162-179 | over any run without a forced stop, no requested cancellation hits `work` or is about to if and only if no suspended `stop` is cancelled while its runner is inside `work` |
| WorkerRuns.CancelledStopCuts | aioworkers/worker/base.py:173-178 | a concrete run in which a graceful `stop` is cancelled while it waits and cuts `work` |
| WorkerRuns.GracefulStopsLoseNothing | aioworkers/worker/base.py:91-179 | over any run with graceful stops and restarts in which no operation fails by itself and no `stop` is cancelled while its runner works, every input taken was handed over, but for the one in progress |
| WorkerRuns.NewWorkerLosesNothing | aioworkers/worker/base.py:91-179 | the same from a new worker on |
| WorkerRuns.GracefulStopDrains | aioworkers/worker/base.py:123-179 | a graceful `stop` that finds the runner awake lets it finish: until the next `start` at most one more run begins, and none if one is under way |
| WorkerRuns.StepKeepsInv | aioworkers/worker/base.py:103-129 | one step of any kind keeps the invariant, the balance of the counters included |
| WorkerStops.RunnerFollows | aioworkers/worker/base.py:91-129 | where the runner waits next, from each await and each way it ends, what `_is_sleep` says then, and that nothing else changes: it goes round until it is cancelled or, `_persist` being off, `work` is over |
| WorkerStops.StepCounts | aioworkers/worker/base.py:91-125 | exactly what each step adds to each counter |
| WorkerStops.StartStarts | aioworkers/worker/base.py:156-160 | after `start` a runner runs: the one there was, or, if there was none or it had ended, a new one that can take its first step |
| WorkerStops.PersistentRunnerGoesOn | aioworkers/worker/base.py:103-129 | over every run without a `stop` or a cancellation, a persistent runner keeps running, however its operations fail |
| WorkerStops.StopRequests | aioworkers/worker/base.py:162-179 | in every reachable state `stop` cancels the runner if forced or asleep, which a graceful one finds outside `work`; lets it finish otherwise; and has nothing to wait for without one |
| WorkerStops.StopComes | aioworkers/worker/base.py:162-179 | whatever happens first, the next step of a runner so cancelled ends it if it is outside `work`; inside, the cancellation arrives, is counted, and ends it if it comes through |
| WorkerStops.CancelledStopComes | aioworkers/worker/base.py:167-179 | the same for the runner awaited by a `stop` that is itself cancelled, which goes on waiting |
| WorkerStops.StopStops | aioworkers/worker/base.py:162-179 | such a `stop`, the cancellation and its return are a feasible course from every reachable state, after which the worker neither runs nor sleeps |
| WorkerStops.StopReturnsStopped | aioworkers/worker/base.py:167-179 | a `stop` returns no sooner than the runner it awaits has ended |
| WorkerStops.BusyStopEnds | aioworkers/worker/base.py:172-179 | after a graceful `stop` of a runner at work, over any run, a runner whose `work` is over ends |
| Workers.Worker.constructor | aioworkers/worker/base.py:54-56 | a new worker is the initial state |
| Workers.Worker.CheckRunning | aioworkers/worker/base.py:148-154 | true exactly if there is a task that has not ended |
| Workers.Worker.StartRunner | aioworkers/worker/base.py:156-160 | `start`: a new task only if none is running |
| Workers.Worker.StopRunner | aioworkers/worker/base.py:162-179 | `stop` until it waits: the whole new state in each of its branches |
| Workers.Worker.FinishStop | aioworkers/worker/base.py:167-179 | `stop` after the runner has ended |
| Workers.Worker.CancelStopCall | aioworkers/worker/base.py:173-178 | cancelling a suspended `stop` requests the cancellation of the runner it awaits, if that has not ended |
| Workers.Worker.Work | aioworkers/worker/base.py:91-96 | `work` up to its first await |
| Workers.Worker.ContinueWork | aioworkers/worker/base.py:94-101 | `work` from each of its awaits |
| Workers.Worker.Loop | aioworkers/worker/base.py:108-112 | the head of the loop |
| Workers.Worker.AfterWork | aioworkers/worker/base.py:123-127 | the tail of the loop |
| Workers.Worker.ContinueRunner | aioworkers/worker/base.py:103-112 | the runner from its first step or a timer |
| Workers.Worker.ResumeRunner | aioworkers/worker/base.py:103-129 | a task goes on from an await that returned, raised or was cancelled |
| FormatterLaws.ResolveIsFlat | aioworkers/core/formatter.py:83-106 | a specification over names free of separators resolves exactly if all its atoms do, and then to those atoms in order, however the separators are mixed |
| FormatterLaws.ActsAsFlat | aioworkers/core/formatter.py:32-46 | a formatter, however nested, encodes through its atoms left to right and decodes through them right to left |
| FormatterLaws.PipelineComposes | aioworkers/core/formatter.py:83-106 | what a specification resolves to encodes and decodes as the composition of its atoms |
| FormatterLaws.PipelineRoundTrip | aioworkers/core/formatter.py:32-46 | a pipeline decodes what it encodes if each atom does on the value that reaches it |
| FormatterLaws.SeparatorsAreAlike | aioworkers/core/formatter.py:92-95 | a specification and the one spelled with colons only resolve alike and act alike |
| FormatterLaws.ChildResolvesExactly | aioworkers/core/formatter.py:83-106 | a new child resolves a specification as its parent does if and only if the parent cannot or cutting it meets no own name of the parent's |
| FormatterLaws.SeparatedNamesAreHidden | aioworkers/core/formatter.py:89-102 | a name of the parent's with a separator in it resolves differently in every new child |
| FormatterLaws.ListsArePipelines | aioworkers/core/formatter.py:103-104 | a list of names acts as the specification that joins them |
| FormatterLaws.SplitTwice | aioworkers/core/formatter.py:92-95 | cutting at one separator and then at both is cutting at both |
| FormatterLaws.OthersUnaffected | aioworkers/core/formatter.py:73-81 | registering names a specification does not mention does not change what it resolves to |
| FormatterNames.GetsNearest | aioworkers/core/formatter.py:85-102 | a single name finds the nearest registration, the own one before a parent's, and nothing if and only if there is none; no name, or `bytes`, leaves every value as it is |
| FormatterNames.BlanksDoNotMatter | aioworkers/core/formatter.py:104 | white space on both sides of a separator changes neither whether a specification resolves nor how it acts |
| FormatterNames.PairMeansBoth | aioworkers/core/formatter.py:92-104 | two names with a separator and any white space between and around them are those two names |
| FormatterNames.TrimsBlanksOnly | aioworkers/core/formatter.py:104 | around a name white space is dropped and nothing else |
| Registries.ChainFormatter.constructor | aioworkers/core/formatter.py:33-36 | the reversed tuple is the reversal of the tuple |
| Registries.ChainFormatter.EncodeValue | aioworkers/core/formatter.py:43-46 | the loop is the composition of the encoders |
| Registries.ChainFormatter.DecodeValue | aioworkers/core/formatter.py:38-41 | the loop over the reversed tuple is the reverse composition of the decoders |
| Registries.Registry.constructor | aioworkers/core/formatter.py:64-66 | a new registry has no entries of its own |
| Registries.Registry.NewChild | aioworkers/core/formatter.py:68-71 | the child sees its parent's layers behind an empty one of its own |
| Registries.Registry.Register | aioworkers/core/formatter.py:73-81 | a name already taken is refused and nothing changes; otherwise exactly the name and the MIME types are entered |
| Registries.Registry.FindAbove | aioworkers/core/formatter.py:96-101 | the parent-walking loop finds the entry of the nearest ancestor |
| Registries.Registry.Get | aioworkers/core/formatter.py:83-106 | for a text: terminates and returns what `Formatters.Resolve` says for the layers of this registry |
| Registries.Registry.GetMany | aioworkers/core/formatter.py:103-104 | `get` of a list: nothing to do for an empty one, otherwise its names in order |
| Registries.Registry.GetAll | aioworkers/core/formatter.py:103-104 | the parts of a split name are resolved in order and any unknown one fails the whole |
| FutureSpec.ReaderSees | aioworkers/storage/meta.py:85-103 | for every history and every read in it: the future handed out then holds, at the end, the first value ever set if the read came before any set, and otherwise what was current at the read |
| FutureSpec.KeyHoldsCurrent | aioworkers/storage/meta.py:85-103 | after every history the future of a key holds nothing, the first value set (`exists_set` off) or the latest (`exists_set` on) |
| FutureSpec.SettledOnce | aioworkers/storage/meta.py:85-96 | a settled future keeps its value over every continuation |
| FutureSpec.StepKeepsInv | aioworkers/storage/meta.py:85-103 | keys never share a future, and a pending future never leaves the table |
| FutureStorages.FutureStorage.SetValue | aioworkers/storage/meta.py:85-96 | `set`: the whole new state; only a pending future is ever settled |
| FutureStorages.FutureStorage.GetFuture | aioworkers/storage/meta.py:98-103 | `get`: the future of the key, created if there is none |
| FutureStorages.FutureStorage.Enter | aioworkers/storage/meta.py:94-95 | a new pending future in the table |
| FutureStorages.FutureCell.SetResult | aioworkers/storage/meta.py:90 | may be called only on a future that is not done |
| FutureStorages.FutureStorage.constructor | aioworkers/storage/meta.py:73-75 | a new storage has an empty table |
| Humanize.ParseRender | aioworkers/humanize.py:39-106 | any non-empty list of numbers with known units, rendered and joined by spaces, parses to the exact weighted sum |
| Humanize.ParseSum | aioworkers/humanize.py:39-106 | two accepted texts with any white character in between are accepted and parse to the sum; an unknown unit in either rejects the whole |
| Humanize.DurationsAreSeconds | aioworkers/humanize.py:69-106 | for every n, n followed by s, m, h, d or w is n, 60n, 3600n, 86400n or 604800n, n alone is n, and n followed by any other letters is rejected |
| Humanize.SizesAreBytes | aioworkers/humanize.py:28-66 | for every n, n followed by K, M, G, T or P is n times 1024 to the power of 1 to 5, with or without a B, n alone is n, and n followed by any other letters is rejected |
| Humanize.AcceptedExactly | aioworkers/humanize.py:26-66 | a number is handed back; a text is accepted if and only if it starts with a digit, consists of ASCII digits, letters and white characters, and has known units only |
| Humanize.ParseAppend | aioworkers/humanize.py:39-66 | the same without the space if a does not end with a digit |
| Humanize.TokensAppend | aioworkers/humanize.py:26-27 | the matches of a text followed by a separate one are the matches of both |
| Humanize.DecimalDigits | aioworkers/humanize.py:56 | the decimal digits of a number read back as that number |
| Humanize.SpacedUnitIsDropped | aioworkers/humanize.py:26-27 | a number, a space and a unit parse as the bare number |
| Humanize.SpacedUnitReadsBackExactly | aioworkers/humanize.py:6-27 | a number printed with a space before its unit is read back if and only if the unit is none, unknown to the parser or worth one, or the number is zero: bytes are, kilobytes are not |
| Humanize.SumMatches | aioworkers/humanize.py:53-66 | the loop over the matches accumulates the sum and stops at the first unknown unit |
| Humanize.ParseSize | aioworkers/humanize.py:39-66 | a number as it is; otherwise the validity check and the loop, with the table of sizes |
| Humanize.ParseDuration | aioworkers/humanize.py:78-106 | a number as it is; otherwise the validity check and the loop, with the table of durations |

## Left out

- QueueRuns.NoLostWakeup: putter futures are not cancelled from outside; `_release_putter` does not test `done()` and would raise.
- QueueRuns.SettledForGood: a task cancelled after its future got a result is asyncio's business, as is the exception a settled future carries to its task.
- QueueSpec: callbacks the event loop fires early within its clock resolution, the order of equal timestamps inside `heapq` (any minimum is allowed, but the same one whenever the same entries are in the same order), float rounding, a `default_score` other than the clock, and `_min_timestamp`, which nothing reads.
- QueueRuns.CleanupSettlesAll: what happens to a queue after `cleanup`, which is terminal.
- MergeDicts.MergeDict.Set: a key with `!` at the end of an inner segment (`a!.b`), which raises KeyError halfway; `Spelled` excludes it here, and `ConfigSpec.Broken` gives what it leaves.
- MergeDicts.MergeDict.SetAlong: the loop of the source that moves a cursor down the path is written as a recursion, so that each object updates its own ghost record.
- MergeDicts.MergeDict.UpdateFrom: merging an object into one inside it, or into one that holds it under an entry that is itself merged, where the source changes what it iterates over; and the iteration order of a `MergeDict`, whose entries are taken in any order.
- MergeDicts.MergeDict.SetBelowNew: a dotted write of an object that contains the place where a mapping has to be made on the way, where the copy sees the mapping just made.
- MergeDicts.MergeDict.UpdateMixed: `MergeDict` objects that belong to this tree, or that sit in a plain dict inside the plain dict.
- ConfigEffect.UpdateActs: what happens at a key with `!` at the end of an inner segment; this and the other laws over raw data (`ConfigWrite.SetPathWrites`, `ConfigEffect.ComposeApplies`, `ConfigEffect.LoadIsMergeExactly`, `ConfigEffect.OverridesShowExactly`) say what writing does when it does not raise.
- MergeDicts.MergeDict.GetCell: attribute access, `get` with a default, non-string keys.
- Configs.ConfigObject.UpdateWith: where `_update_logging` puts logging settings (only that it takes them out), and keys, loaded or declared, with `!` at the end of an inner segment.
- Layers.LayeredLookup: dotted keys, the wrapping of nested mappings in views of their own, and the converters `get_int` to `get_obj`. Contents are those at the time of the lookup.
- FormatterLaws.ResolveIsFlat: names with `:` or `|` in them; how a new child sees those of its parent is `FormatterLaws.ChildResolvesExactly`.
- Registries.Registry.Get: keys that are neither texts nor lists of texts.
- FutureStorages.FutureStorage.GetFuture: weak references and readers that cancel the future they were given.
- Workers.Worker.ResumeRunner: the timestamps of the last start and stop, logging, and the set-up from configuration.
- `humanize.size`: float logarithm and `%g` formatting.
- `Fallback`, `Replicator`, `Cache`: short loops over other storages.
- Loaders, plugins, the command line, the context, `net`, other storages and queues, `Subprocess` and `Supervisor`: input and output, reflection, processes.
