/** The theorems about whole runs: what holds in every state a queue can reach by calls,
    callbacks, cancellations and the passing of time, in any order. */
module QueueRuns {
  import opened Wrappers
  import opened QueueSpec
  import opened QueueHeap
  import opened QueueWakeup
  import opened QueueAccounting
  import opened QueueFutures

  ghost predicate QueueInv(s: State) {
    WakeupInv(s) && Conserved(s) && PressureInv(s) && FuturesInv(s)
  }

  lemma InitialInv(config: Config, now: Time)
    ensures QueueInv(Initial(config, now))
  {
  }

  lemma StepKeepsInv(s: State, e: Event)
    requires QueueInv(s) && Enabled(s, e)
    ensures QueueInv(Step(s, e))
  {
    StepKeepsWakeup(s, e);
    StepConserves(s, e);
    StepKeepsPressure(s, e);
    StepKeepsFutures(s, e);
  }

  lemma {:induction false} RunKeepsInv(s: State, es: seq<Event>)
    requires QueueInv(s) && Feasible(s, es)
    ensures QueueInv(Run(s, es))
    decreases |es|
  {
    if es != [] {
      StepKeepsInv(s, es[0]);
      RunKeepsInv(Step(s, es[0]), es[1..]);
    }
  }

  /** Every state reachable from a new queue. */
  ghost predicate Reachable(s: State) {
    exists config, now, es :: Feasible(Initial(config, now), es) && s == Run(Initial(config, now), es)
  }

  lemma ReachableInv(s: State)
    requires Reachable(s)
    ensures QueueInv(s)
  {
    var config, now, es :| Feasible(Initial(config, now), es) && s == Run(Initial(config, now), es);
    InitialInv(config, now);
    RunKeepsInv(Initial(config, now), es);
  }

  /** No lost wakeup: while somebody is in line and something is live, a callback is pending
      with a deadline no later than any live timestamp. */
  lemma NoLostWakeup(s: State, item: Item)
    requires Reachable(s) && s.waiters.getters != [] && IsLive(s, item)
    ensures exists i :: 0 <= i < |s.timers| && s.timers[i] <= item.timestamp
  {
    ReachableInv(s);
    assert HasTimerBy(s.timers, item.timestamp);
  }

  /** Hence, once every due callback has run, nobody waits while something is due. */
  lemma QuietMeansServed(s: State, f: nat, item: Item)
    requires Reachable(s) && forall i :: 0 <= i < |s.timers| ==> s.now < s.timers[i]
    requires IsPending(s.waiters.getFutures, f) && IsLive(s, item)
    ensures s.now < item.timestamp
  {
    ReachableInv(s);
    assert Queued(s.waiters.getters, f);
    NoLostWakeup(s, item);
  }

  ghost function Due(timers: seq<Time>, now: Time): nat {
    if timers == [] then 0 else (if timers[0] <= now then 1 else 0) + Due(timers[1..], now)
  }

  lemma {:induction false} DueWithout(timers: seq<Time>, i: nat, now: Time)
    requires i < |timers| && timers[i] <= now
    ensures Due(Without(timers, i), now) == Due(timers, now) - 1
  {
    if i == 0 {
      assert Without(timers, 0) == timers[1..];
    } else {
      DueWithout(timers[1..], i - 1, now);
      assert Without(timers, i)[1..] == Without(timers[1..], i - 1);
    }
  }

  lemma {:induction false} DueLater(timers: seq<Time>, t: Time, now: Time)
    requires now < t
    ensures Due(timers + [t], now) == Due(timers, now)
  {
    if timers != [] {
      DueLater(timers[1..], t, now);
      assert (timers + [t])[1..] == timers[1..] + [t];
    }
  }

  /** `_on_time` registers callbacks for later only. */
  lemma {:induction false} OnTimeArmsLater(s: State)
    ensures OnTime(s).now == s.now && Due(OnTime(s).timers, s.now) == Due(s.timers, s.now)
    decreases |s.waiters.getters|
  {
    if s.waiters.getters != [] {
      var (s1, popped) := PopFrom(s);
      if popped.Some? {
        if popped.value.timestamp > s1.now {
          DueLater(s1.timers, popped.value.timestamp, s1.now);
        } else {
          var (s2, sent) := SendFrom(s1, popped.value);
          if sent { OnTimeArmsLater(s2); }
        }
      }
    }
  }

  /** Running due callbacks terminates: each uses up one of the due ones and makes no new
      one, so any sequence of them is exactly as long as the number it disposes of. */
  lemma {:induction false} DrainingTerminates(s: State, es: seq<Event>)
    requires Feasible(s, es) && forall e :: e in es ==> e.FireTimer?
    ensures Run(s, es).now == s.now
    ensures |es| + Due(Run(s, es).timers, s.now) == Due(s.timers, s.now)
    decreases |es|
  {
    if es != [] {
      var i := es[0].index;
      DueWithout(s.timers, i, s.now);
      OnTimeArmsLater(s.(timers := Without(s.timers, i)));
      DrainingTerminates(Step(s, es[0]), es[1..]);
    }
  }

  /** Conservation: every copy put is resident, overwritten, or was delivered. In the plain
      timestamp queue nothing is ever overwritten. */
  lemma NothingIsLost(s: State, e: Entry)
    requires Reachable(s)
    ensures s.puts[e] ==
            Copies(s.config, s.heap, e) + s.heap.overwritten[e] + Handed(s.waiters.delivered, e)
    ensures !s.config.unique ==> s.heap.overwritten == multiset{}
  {
    ReachableInv(s);
    assert s.puts[e] == Accounted(s, e);
    var config, now, es :| Feasible(Initial(config, now), es) && s == Run(Initial(config, now), es);
    PlainOverwritesNothing(Initial(config, now), es);
  }

  lemma {:induction false} PopOverwritesNothing(c: Config, h: Heap)
    ensures Pop(c, h).0.overwritten == h.overwritten
    decreases |h.queue|
  {
    if h.queue != [] && c.unique && !IsCurrent(c, h, h.queue[c.heapq(h.queue)]) {
      PopOverwritesNothing(c, h.(queue := Without(h.queue, c.heapq(h.queue))));
    }
  }

  lemma {:induction false} OnTimeOverwritesNothing(s: State)
    requires !s.config.unique
    ensures OnTime(s).config == s.config && OnTime(s).heap.overwritten == s.heap.overwritten
    decreases |s.waiters.getters|
  {
    if s.waiters.getters != [] {
      PopOverwritesNothing(s.config, s.heap);
      var (s1, popped) := PopFrom(s);
      if popped.Some? && popped.value.timestamp <= s1.now {
        var (s2, sent) := SendFrom(s1, popped.value);
        if sent { OnTimeOverwritesNothing(s2); }
      }
    }
  }

  lemma {:induction false} PlainOverwritesNothing(s: State, es: seq<Event>)
    requires Feasible(s, es)
    ensures Run(s, es).config.unique == s.config.unique
    ensures !s.config.unique ==> Run(s, es).heap.overwritten == s.heap.overwritten
    decreases |es|
  {
    if es != [] {
      StepOverwrites(s, es[0]);
      PlainOverwritesNothing(Step(s, es[0]), es[1..]);
    }
  }

  lemma StepOverwrites(s: State, e: Event)
    requires Enabled(s, e)
    ensures Step(s, e).config == s.config
    ensures !s.config.unique ==> Step(s, e).heap.overwritten == s.heap.overwritten
  {
    match e
    case CallGet(withScore, timeout) => PopOverwritesNothing(s.config, s.heap);
    case FireTimer(i) =>
      OnTimeKeepsConfig(s.(timers := Without(s.timers, i)));
      if !s.config.unique { OnTimeOverwritesNothing(s.(timers := Without(s.timers, i))); }
    case _ =>
  }

  lemma {:induction false} OnTimeKeepsConfig(s: State)
    ensures OnTime(s).config == s.config
    decreases |s.waiters.getters|
  {
    if s.waiters.getters != [] && PopFrom(s).1.Some? && PopFrom(s).1.value.timestamp <= s.now {
      var (s2, sent) := SendFrom(PopFrom(s).0, PopFrom(s).1.value);
      if sent { OnTimeKeepsConfig(s2); }
    }
  }

  /** Back-pressure: `maxsize` is exceeded by at most one entry for each blocked caller, and
      as soon as the queue is not full, every call that ever blocked has been released. */
  lemma BackPressure(s: State)
    requires Reachable(s) && 0 < s.config.maxsize
    ensures Len(s.config, s.heap) <= s.config.maxsize - 1 + |s.waiters.putters|
    ensures !Full(s.config, s.heap) ==>
              s.waiters.putters == [] && forall p :: p in s.waiters.putFutures ==> s.waiters.putFutures[p] == Released
  {
    ReachableInv(s);
  }

  /** Never early, and never to anybody twice: on every run each delivery was due when it
      was made, and each settled getter got one of them. */
  lemma NeverEarly(s: State, i: nat)
    requires Reachable(s) && i < |s.waiters.delivered|
    ensures var d := s.waiters.delivered[i];
            && d.entry.timestamp <= d.at <= s.now
            && (d.to.Some? ==> d.to.value in s.waiters.getFutures
                               && Honours(s.waiters.getFutures[d.to.value], d.entry)
                               && forall j :: 0 <= j < |s.waiters.delivered| && j != i ==>
                                    s.waiters.delivered[j].to != d.to)
  {
    ReachableInv(s);
    assert SoundDelivery(s.waiters, s.waiters.delivered[i], s.now);
  }

  /** `get` returns at once only a due entry that nothing left behind precedes. */
  lemma GetReturnsMinimum(s: State, withScore: bool, timeout: Option<Time>, item: Item)
    requires Reachable(s) && Get(s, withScore, timeout).1 == Some(item)
    ensures IsLive(s, item) && item.timestamp <= s.now
    ensures forall other :: IsLive(Get(s, withScore, timeout).0, other) ==> item.timestamp <= other.timestamp
  {
    ReachableInv(s);
    PopKeepsHeapInv(s);
    var (s1, popped) := PopFrom(s);
    assert forall other :: IsLive(Serve(s1, item), other) <==> IsLive(s1, other);
  }

  /** Nobody overtakes the line: while somebody waits and no callback is due, a new `get` does
      not return at once. */
  lemma NobodyOvertakes(s: State, f: nat, withScore: bool, timeout: Option<Time>)
    requires Reachable(s) && forall i :: 0 <= i < |s.timers| ==> s.now < s.timers[i]
    requires IsPending(s.waiters.getFutures, f)
    ensures Get(s, withScore, timeout).1 == None
  {
    var got := Get(s, withScore, timeout).1;
    if got.Some? {
      GetReturnsMinimum(s, withScore, timeout, got.value);
      QuietMeansServed(s, f, got.value);
    }
  }

  /** A timer firing in a reachable state serves the line in order; see `ServedInOrder`. */
  lemma TimerServesInOrder(s: State, i: nat, floor: Time)
    requires Reachable(s) && Enabled(s, FireTimer(i)) && LiveFrom(s, floor)
    ensures var t := Step(s, FireTimer(i));
            && ServedInOrder(s, t, floor)
            && (Waiting(t.waiters) == [] || NothingDue(t))
  {
    ReachableInv(s);
    var s0 := s.(timers := Without(s.timers, i));
    ArmedWithout(s, i);
    OnTimeServes(s0, floor);
    var t := OnTime(s0);
    assert NewDeliveries(s0.waiters, t.waiters) == NewDeliveries(s.waiters, t.waiters);
    assert ServedInOrder(s, t, floor);
  }

  /** No future is settled twice: over any run, from any reachable state, what is settled
      stays as it is and what was delivered stays delivered. */
  lemma {:induction false} SettledForGood(s: State, es: seq<Event>)
    requires QueueInv(s) && Feasible(s, es)
    ensures OnlySettles(s.waiters, Run(s, es).waiters)
    decreases |es|
  {
    if es != [] {
      StepKeepsInv(s, es[0]);
      StepOnlySettles(s, es[0]);
      SettledForGood(Step(s, es[0]), es[1..]);
      OnlySettlesTrans(s.waiters, Step(s, es[0]).waiters, Run(s, es).waiters);
    }
  }

  /** `cleanup` leaves nobody waiting on either side, and loses no entry. */
  lemma CleanupSettlesAll(s: State)
    requires Reachable(s)
    ensures var t := Cleanup(s);
            && OnlySettles(s.waiters, t.waiters)
            && t.waiters.getFutures.Keys == s.waiters.getFutures.Keys
            && (forall f :: f in s.waiters.getFutures ==>
                  t.waiters.getFutures[f] == if s.waiters.getFutures[f] == Pending then Cancelled
                                             else s.waiters.getFutures[f])
            && t.waiters.putFutures.Keys == s.waiters.putFutures.Keys
            && (forall p :: p in s.waiters.putFutures ==>
                  t.waiters.putFutures[p] == if s.waiters.putFutures[p] == Pending then Cancelled
                                             else s.waiters.putFutures[p])
            && t.waiters.getters == [] && t.waiters.putters == [] && t.heap == s.heap && Conserved(t)
  {
    ReachableInv(s);
    var t := Cleanup(s);
    forall e: Entry ensures t.puts[e] == Accounted(t, e) {
      assert s.puts[e] == Accounted(s, e);
    }
    forall f | f in t.waiters.getFutures && s.waiters.getFutures[f] == Pending
      ensures t.waiters.getFutures[f] == Cancelled
    {
      assert s.waiters.getFutures[f] == Pending ==> Queued(s.waiters.getters, f);
    }
  }
}
