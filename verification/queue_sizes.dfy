/** The numbers: when a `put` blocks, how much the queue holds, how many timers it needs. */
module QueueSizes {
  import opened Wrappers
  import opened QueueSpec
  import opened QueueHeap
  import opened QueueAccounting
  import opened QueueFutures
  import opened QueueUnique
  import opened QueueRuns

  /** How many entries the queue holds: values for the unique queue. */
  ghost function Size(s: State): nat {
    if s.config.unique then |AsMap(s.heap)| else |s.heap.queue|
  }

  lemma LenIs(s: State)
    ensures Len(s.config, s.heap) == Size(s)
  {
    if s.config.unique { LenIsSize(s.config, s.heap); }
  }

  // ---------- Blocking ----------

  /** Somebody is blocked in `put` only while the queue has a limit and is at it. */
  lemma BlockedMeansAtTheLimit(s: State)
    requires Reachable(s)
    ensures s.waiters.putters != [] ==> 0 < s.config.maxsize <= Size(s)
    ensures s.config.maxsize <= 0 || Size(s) < s.config.maxsize ==>
              s.waiters.putters == [] && forall p :: p in s.waiters.putFutures ==> s.waiters.putFutures[p] == Released
  {
    ReachableInv(s);
    LenIs(s);
  }

  /** Its `put` keeps the entry, rather than handing it over. */
  ghost predicate Keeps(s: State, value: Value, score: Option<Time>) {
    Put(s, value, score).waiters.delivered == s.waiters.delivered
  }

  lemma BlockIfFullBlocks(s: State)
    requires IdsInv(s.waiters, s.nextId)
    ensures var t := BlockIfFull(s);
            && Size(t) == Size(s) && t.config == s.config && t.waiters.delivered == s.waiters.delivered
            && (if 0 < s.config.maxsize <= Size(s) then
                  && s.nextId !in s.waiters.putFutures
                  && t.waiters.putters == s.waiters.putters + [s.nextId]
                  && t.waiters.putFutures == s.waiters.putFutures[s.nextId := Pending]
                else t == s)
  {
    LenIs(s);
  }

  /** A `put` blocks exactly if it keeps its entry and then the queue is at its limit. */
  lemma PutBlocksExactly(s: State, value: Value, score: Option<Time>)
    requires Reachable(s)
    ensures var t := Put(s, value, score);
            (exists p :: p !in s.waiters.putFutures && IsPending(t.waiters.putFutures, p)) <==>
            Keeps(s, value, score) && 0 < s.config.maxsize <= Size(t)
  {
    ReachableInv(s);
    IdsOf(s);
    hide QueueInv, Reachable;
    var (s1, item) := Arrive(s, value, ScoreOf(s, score));
    if s1.waiters.getters != [] && item.timestamp < s1.now {
      SendPutters(s1.waiters, item, Full(s1.config, s1.heap), s1.now);
      var (s2, sent) := SendFrom(s1, item);
      if !sent { KeepBlocks(s2, item); }
    } else {
      KeepBlocks(s1, item);
    }
  }

  lemma IdsOf(s: State)
    requires QueueInv(s)
    ensures IdsInv(s.waiters, s.nextId)
  {
  }

  lemma KeepBlocks(s: State, item: Item)
    requires IdsInv(s.waiters, s.nextId)
    ensures var t := Keep(s, item);
            && t.waiters.delivered == s.waiters.delivered
            && ((exists p :: p !in s.waiters.putFutures && IsPending(t.waiters.putFutures, p)) <==>
                0 < s.config.maxsize <= Size(t))
  {
    var kept := if s.waiters.getters == [] then s.(heap := PutItem(s.config, s.heap, item)) else Schedule(s, item);
    BlockIfFullBlocks(kept);
    if 0 < s.config.maxsize <= Size(kept) {
      assert IsPending(Keep(s, item).waiters.putFutures, kept.nextId);
    }
  }

  /** `_send` makes nobody wait in `put`, and records a delivery exactly if it succeeds. */
  lemma {:induction false} SendPutters(w: Waiters, item: Item, full: bool, now: Time)
    ensures var (t, sent) := Send(w, item, full, now);
            && (forall p :: IsPending(t.putFutures, p) ==> p in w.putFutures)
            && |t.delivered| == |w.delivered| + (if sent then 1 else 0)
            && (!sent ==> t.delivered == w.delivered && t.putFutures == w.putFutures)
    decreases |w.getters|
  {
    if w.getters != [] && !IsPending(w.getFutures, w.getters[0].future) {
      SendPutters(w.(getters := w.getters[1..]), item, full, now);
    }
  }

  // ---------- What a put stands for ----------

  /** A `put` without a score is one at the current time, later by `add_score`. */
  lemma PutCounts(s: State, value: Value, score: Option<Time>)
    ensures Put(s, value, score).puts == s.puts + multiset{Entry(value, if score.Some? then score.value
                                                                         else s.now + s.config.addScore)}
  {
  }

  // ---------- Entries and timers ----------

  ghost function Unscheduled(q: seq<Item>): nat {
    if q == [] then 0 else (if q[0].scheduled then 0 else 1) + Unscheduled(q[1..])
  }

  lemma {:induction false} UnscheduledWithout(q: seq<Item>, i: nat)
    requires i < |q|
    ensures Unscheduled(q) == Unscheduled(Without(q, i)) + if q[i].scheduled then 0 else 1
  {
    if i == 0 {
      assert Without(q, 0) == q[1..];
    } else {
      UnscheduledWithout(q[1..], i - 1);
      assert Without(q, i)[1..] == Without(q[1..], i - 1);
    }
  }

  lemma {:induction false} UnscheduledSnoc(q: seq<Item>, item: Item)
    ensures Unscheduled(q + [item]) == Unscheduled(q) + if item.scheduled then 0 else 1
  {
    if q == [] {
      assert [] + [item] == [item] && [item][1..] == [];
    } else {
      UnscheduledSnoc(q[1..], item);
      assert (q + [item])[1..] == q[1..] + [item];
    }
  }

  /** The timers pending, and those that the items in the heap may still need. */
  ghost function Alarms(s: State): nat {
    |s.timers| + Unscheduled(s.heap.queue)
  }

  ghost function Held(s: State): nat {
    |s.heap.queue| + |s.waiters.delivered|
  }

  ghost function Fresh(item: Item): nat {
    if item.scheduled then 0 else 1
  }

  /** Taking an item out: its alarm and its place. */
  lemma {:induction false} PopSizes(c: Config, h: Heap)
    ensures var (t, popped) := Pop(c, h);
            && Unscheduled(t.queue) + (if popped.Some? then Fresh(popped.value) else 0) <= Unscheduled(h.queue)
            && (!c.unique ==> |t.queue| + (if popped.Some? then 1 else 0) == |h.queue|)
    decreases |h.queue|
  {
    if h.queue != [] {
      var i := c.heapq(h.queue);
      UnscheduledWithout(h.queue, i);
      if c.unique && !IsCurrent(c, h, h.queue[i]) { PopSizes(c, h.(queue := Without(h.queue, i))); }
    }
  }

  /** Putting one in, at once or scheduled. */
  lemma PutSizes(s: State, item: Item)
    ensures var t := s.(heap := PutItem(s.config, s.heap, item));
            Alarms(t) == Alarms(s) + Fresh(item) && Held(t) == Held(s) + 1
    ensures Alarms(Schedule(s, item)) == Alarms(s) + Fresh(item) && Held(Schedule(s, item)) == Held(s) + 1
  {
    UnscheduledSnoc(s.heap.queue, item);
    UnscheduledSnoc(s.heap.queue, Scheduled(item, s.nextId));
  }

  lemma {:induction false} OnTimeSizes(s: State)
    ensures var t := OnTime(s);
            && t.config == s.config && t.puts == s.puts && Alarms(t) <= Alarms(s)
            && (!s.config.unique ==> Held(t) == Held(s))
    decreases |s.waiters.getters|
  {
    hide Pop, Send, PutItem, Unscheduled;
    if s.waiters.getters != [] {
      PopSizes(s.config, s.heap);
      var (s1, popped) := PopFrom(s);
      if popped.Some? {
        PutSizes(s1, popped.value);
        if popped.value.timestamp <= s1.now {
          SendPutters(s1.waiters, popped.value, Full(s1.config, s1.heap), s1.now);
          var (s2, sent) := SendFrom(s1, popped.value);
          PutSizes(s2, popped.value);
          if sent { OnTimeSizes(s2); }
        }
      }
    }
  }

  /** Every timer belongs to a put, and the plain queue holds what was put and not delivered. */
  ghost predicate SizesInv(s: State) {
    Alarms(s) <= |s.puts| && (!s.config.unique ==> Held(s) == |s.puts|)
  }

  lemma ScheduleStays(s: State, item: Item)
    ensures var t := Schedule(s, item);
            t.config == s.config && t.waiters == s.waiters && t.puts == s.puts && t.now == s.now
  {
  }

  lemma KeepSizes(s: State, item: Item)
    requires !item.scheduled
    ensures var t := Keep(s, item);
            t.config == s.config && t.puts == s.puts && Alarms(t) == Alarms(s) + 1 && Held(t) == Held(s) + 1
  {
    hide PutItem, Unscheduled, Schedule, Full;
    PutSizes(s, item);
    ScheduleStays(s, item);
  }

  lemma PutKeepsSizes(s: State, value: Value, score: Option<Time>)
    requires SizesInv(s)
    ensures SizesInv(Put(s, value, score))
  {
    hide PutItem, Unscheduled, Send, Keep, ScoreOf, Full;
    var (s1, item) := Arrive(s, value, ScoreOf(s, score));
    SendPutters(s1.waiters, item, Full(s1.config, s1.heap), s1.now);
    KeepSizes(s1, item);
    KeepSizes(SendFrom(s1, item).0, item);
  }

  lemma GetKeepsSizes(s: State, withScore: bool, timeout: Option<Time>)
    requires SizesInv(s)
    ensures SizesInv(Get(s, withScore, timeout).0)
  {
    hide Pop, PutItem, Unscheduled, Schedule;
    PopSizes(s.config, s.heap);
    var (s1, popped) := PopFrom(s);
    if popped.Some? {
      PutSizes(s1, popped.value);
      ScheduleStays(s1, popped.value);
    }
  }

  lemma StepKeepsSizes(s: State, e: Event)
    requires SizesInv(s) && Enabled(s, e)
    ensures SizesInv(Step(s, e))
  {
    hide Put, Get, OnTime;
    match e
    case CallPut(value, score) => PutKeepsSizes(s, value, score);
    case CallGet(withScore, timeout) => GetKeepsSizes(s, withScore, timeout);
    case FireTimer(i) => OnTimeSizes(s.(timers := Without(s.timers, i)));
    case FireTimeout(f) =>
    case CancelGetter(f) =>
    case Tick(t) =>
  }

  lemma {:induction false} RunKeepsSizes(s: State, es: seq<Event>)
    requires SizesInv(s) && Feasible(s, es)
    ensures SizesInv(Run(s, es))
    decreases |es|
  {
    hide SizesInv, Step, Enabled;
    if es != [] {
      StepKeepsSizes(s, es[0]);
      RunKeepsSizes(Step(s, es[0]), es[1..]);
    }
  }

  lemma ReachableSizes(s: State)
    requires Reachable(s)
    ensures SizesInv(s)
  {
    hide Run, Feasible;
    var config, now, es :| Feasible(Initial(config, now), es) && s == Run(Initial(config, now), es);
    RunKeepsSizes(Initial(config, now), es);
  }

  /** The plain queue's length is the number of entries put less the number delivered, and it
      is empty exactly if they are equal. */
  lemma PlainLength(s: State)
    requires Reachable(s) && !s.config.unique
    ensures Len(s.config, s.heap) == |s.puts| - |s.waiters.delivered|
    ensures Empty(s.config, s.heap) <==> |s.puts| == |s.waiters.delivered|
  {
    ReachableSizes(s);
  }

  /** Rescheduling an entry that has a timer makes no second one: there are never more pending
      timers than there were puts. */
  lemma TimersBounded(s: State)
    requires Reachable(s)
    ensures |s.timers| <= |s.puts|
  {
    ReachableSizes(s);
  }
}
