/** No lost wakeup: a waiting getter and an item it could get never face each other without
    a pending callback that is early enough. */
module QueueWakeup {
  import opened Wrappers
  import opened QueueSpec
  import opened QueueHeap

  ghost predicate HasTimerBy(timers: seq<Time>, t: Time) {
    exists i :: 0 <= i < |timers| && timers[i] <= t
  }

  ghost predicate IsLive(s: State, item: Item) {
    Live(s.config, s.heap, item)
  }

  ghost predicate HeapInv(s: State) {
    WellFormed(s.config, s.heap) && IdsBelow(s.heap, s.nextId)
  }

  /** The flag `scheduled` means what it says until the item is due. */
  ghost predicate Armed(s: State) {
    forall item :: IsLive(s, item) && item.scheduled && s.now < item.timestamp ==> item.timestamp in s.timers
  }

  ghost predicate AllCovered(s: State) {
    forall item :: IsLive(s, item) ==> HasTimerBy(s.timers, item.timestamp)
  }

  ghost predicate WakeupInv(s: State) {
    HeapInv(s) && Armed(s) && (s.waiters.getters != [] ==> AllCovered(s))
  }

  lemma HasTimerByLater(timers: seq<Time>, t: Time, u: Time)
    requires HasTimerBy(timers, t) && t <= u
    ensures HasTimerBy(timers, u)
  {
    var i :| 0 <= i < |timers| && timers[i] <= t;
  }

  lemma HasTimerByGrows(timers: seq<Time>, more: Time, t: Time)
    requires HasTimerBy(timers, t)
    ensures HasTimerBy(timers + [more], t)
  {
    var i :| 0 <= i < |timers| && timers[i] <= t;
    assert (timers + [more])[i] <= t;
  }

  /** `_pop` on a state: what stays, and what is taken. */
  lemma PopKeepsHeapInv(s: State)
    requires HeapInv(s)
    ensures var (t, popped) := PopFrom(s);
            && HeapInv(t)
            && (Armed(s) ==> Armed(t)) && (AllCovered(s) ==> AllCovered(t))
            && match popped
               case None => forall item :: !IsLive(t, item)
               case Some(item) =>
                 && IsLive(s, item) && item.id < s.nextId && NoneWithId(t.heap, item.id)
                 && (forall other :: IsLive(t, other) ==> item.timestamp <= other.timestamp)
  {
    PopTakesMinimum(s.config, s.heap);
    PopKeepsWellFormed(s.config, s.heap);
  }

  /** After `_schedule` the item is live under its old value and timestamp, and a timer no
      later than its timestamp is pending. */
  lemma ScheduleArms(s: State, item: Item)
    requires HeapInv(s) && Armed(s)
    requires item.id < s.nextId && NoneWithId(s.heap, item.id)
    requires item.scheduled ==> item.timestamp in s.timers
    ensures var t := Schedule(s, item);
            && HeapInv(t) && Armed(t)
            && HasTimerBy(t.timers, item.timestamp)
            && (AllCovered(s) ==> AllCovered(t))
            && (forall other :: IsLive(t, other) ==> IsLive(s, other) || EntryOf(other) == EntryOf(item))
  {
    var it := Scheduled(item, s.nextId);
    PutItemIsLive(s.config, s.heap, it);
    var t := Schedule(s, item);
    if !item.scheduled {
      assert t.timers[|s.timers|] == item.timestamp;
      forall other | AllCovered(s) && IsLive(s, other) ensures HasTimerBy(t.timers, other.timestamp) {
        HasTimerByGrows(s.timers, item.timestamp, other.timestamp);
      }
    }
    assert HasTimerBy(t.timers, item.timestamp);
  }

  /** Putting back an earliest item that is not due covers every live item. */
  lemma RescheduleCovers(s: State, item: Item)
    requires HeapInv(s) && Armed(s)
    requires PopFrom(s).1 == Some(item) && s.now < item.timestamp
    ensures var t := Schedule(PopFrom(s).0, item);
            && HeapInv(t) && Armed(t) && AllCovered(t)
            && (forall other :: IsLive(t, other) ==> s.now < other.timestamp)
  {
    PopKeepsHeapInv(s);
    var (s1, _) := PopFrom(s);
    ScheduleArms(s1, item);
    var t := Schedule(s1, item);
    forall other | IsLive(t, other) ensures s.now < other.timestamp && HasTimerBy(t.timers, other.timestamp) {
      HasTimerByLater(t.timers, item.timestamp, other.timestamp);
    }
  }

  /** The property reads the heap, the clock, the timers, and whether anyone waits. */
  lemma SameHeapSameWakeup(s: State, t: State)
    requires HeapInv(s) && Armed(s)
    requires t.config == s.config && t.heap == s.heap && s.nextId <= t.nextId
    requires t.timers == s.timers && t.now == s.now
    requires t.waiters.getters == [] || AllCovered(s)
    ensures WakeupInv(t)
  {
  }

  lemma GetKeepsWakeup(s: State, withScore: bool, timeout: Option<Time>)
    requires WakeupInv(s)
    ensures WakeupInv(Get(s, withScore, timeout).0)
  {
    PopKeepsHeapInv(s);
    var (s1, popped) := PopFrom(s);
    if popped == None {
      SameHeapSameWakeup(s1, Wait(s1, withScore, timeout));
    } else if popped.value.timestamp > s.now {
      RescheduleCovers(s, popped.value);
      var s2 := Schedule(s1, popped.value);
      SameHeapSameWakeup(s2, Wait(s2, withScore, timeout));
    } else {
      SameHeapSameWakeup(s1, Serve(s1, popped.value));
    }
  }

  lemma KeepKeepsWakeup(s: State, item: Item)
    requires WakeupInv(s) && !item.scheduled
    requires item.id < s.nextId && NoneWithId(s.heap, item.id)
    ensures WakeupInv(Keep(s, item))
  {
    if s.waiters.getters == [] {
      PutItemIsLive(s.config, s.heap, item);
    } else {
      ScheduleArms(s, item);
    }
  }

  lemma PutKeepsWakeup(s: State, value: Value, score: Option<Time>)
    requires WakeupInv(s)
    ensures WakeupInv(Put(s, value, score))
  {
    var (s1, item) := Arrive(s, value, ScoreOf(s, score));
    SameHeapSameWakeup(s, s1);
    if s1.waiters.getters != [] && item.timestamp < s1.now {
      var (s2, sent) := SendFrom(s1, item);
      SameHeapSameWakeup(s1, s2);
      if !sent { KeepKeepsWakeup(s2, item); }
    } else {
      KeepKeepsWakeup(s1, item);
    }
  }

  /** However it ends, `_on_time` leaves the remaining getters covered: by a fresh timer, or
      because there is nothing to wait for. It does not rely on being covered before. */
  lemma {:induction false} OnTimeRestoresWakeup(s: State)
    requires HeapInv(s) && Armed(s)
    ensures var t := OnTime(s);
            && WakeupInv(t)
            && (t.waiters.getters != [] ==> forall item :: IsLive(t, item) ==> t.now < item.timestamp)
    decreases |s.waiters.getters|
  {
    if s.waiters.getters != [] {
      PopKeepsHeapInv(s);
      var (s1, popped) := PopFrom(s);
      if popped.Some? {
        if popped.value.timestamp > s1.now {
          RescheduleCovers(s, popped.value);
        } else {
          var (s2, sent) := SendFrom(s1, popped.value);
          assert HeapInv(s2) && Armed(s2);
          if sent { OnTimeRestoresWakeup(s2); } else { PutItemIsLive(s2.config, s2.heap, popped.value); }
        }
      }
    }
  }

  /** A timer that fires was due, so no item still counts on it. */
  lemma ArmedWithout(s: State, i: nat)
    requires Armed(s) && i < |s.timers| && s.timers[i] <= s.now
    ensures Armed(s.(timers := Without(s.timers, i)))
  {
    var s0 := s.(timers := Without(s.timers, i));
    forall t | t in s.timers && t != s.timers[i] ensures t in s0.timers {
      var j :| 0 <= j < |s.timers| && s.timers[j] == t;
      assert s0.timers[if j < i then j else j - 1] == t;
    }
  }

  lemma {:induction false} StepKeepsWakeup(s: State, e: Event)
    requires WakeupInv(s) && Enabled(s, e)
    ensures WakeupInv(Step(s, e))
  {
    match e
    case CallPut(value, score) => PutKeepsWakeup(s, value, score);
    case CallGet(withScore, timeout) => GetKeepsWakeup(s, withScore, timeout);
    case FireTimer(i) =>
      ArmedWithout(s, i);
      OnTimeRestoresWakeup(s.(timers := Without(s.timers, i)));
    case _ =>
  }
}
