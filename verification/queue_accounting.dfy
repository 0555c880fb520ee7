/** Conservation and back-pressure: where every entry that was put has gone, and how far past
    `maxsize` the queue can grow. */
module QueueAccounting {
  import opened Wrappers
  import opened QueueSpec
  import opened QueueHeap

  ghost function Handed(ds: seq<Delivery>, e: Entry): nat {
    if ds == [] then 0
    else Handed(ds[..|ds| - 1], e) + if ds[|ds| - 1].entry == e then 1 else 0
  }

  /** Copies of an entry that are resident, overwritten by a later put of the same value, or
      handed over. */
  ghost function Accounted(s: State, e: Entry): nat {
    Copies(s.config, s.heap, e) + s.heap.overwritten[e] + Handed(s.waiters.delivered, e)
  }

  ghost predicate Conserved(s: State) {
    forall e: Entry :: s.puts[e] == Accounted(s, e)
  }

  lemma HandedSnoc(ds: seq<Delivery>, d: Delivery, e: Entry)
    ensures Handed(ds + [d], e) == Handed(ds, e) + if d.entry == e then 1 else 0
  {
    assert (ds + [d])[..|ds|] == ds;
  }

  lemma ScheduleAccounts(s: State, item: Item, e: Entry)
    requires WellFormed(s.config, s.heap)
    ensures Accounted(Schedule(s, item), e) == Accounted(s, e) + One(item, e)
  {
    PutItemAddsOne(s.config, s.heap, Scheduled(item, s.nextId), e);
  }

  lemma {:induction false} SendHands(w: Waiters, item: Item, full: bool, now: Time, e: Entry)
    ensures var (t, sent) := Send(w, item, full, now);
            Handed(t.delivered, e) == Handed(w.delivered, e) + if sent then One(item, e) else 0
    decreases |w.getters|
  {
    if w.getters != [] {
      var g := w.getters[0];
      if IsPending(w.getFutures, g.future) {
        HandedSnoc(w.delivered, Delivery(EntryOf(item), Some(g.future), now), e);
      } else {
        SendHands(w.(getters := w.getters[1..]), item, full, now, e);
      }
    }
  }

  lemma SendAccounts(s: State, item: Item, e: Entry)
    ensures var (t, sent) := SendFrom(s, item);
            Accounted(t, e) == Accounted(s, e) + if sent then One(item, e) else 0
  {
    SendHands(s.waiters, item, Full(s.config, s.heap), s.now, e);
  }

  lemma KeepAccounts(s: State, item: Item, e: Entry)
    requires WellFormed(s.config, s.heap)
    ensures Accounted(Keep(s, item), e) == Accounted(s, e) + One(item, e)
  {
    if s.waiters.getters == [] {
      PutItemAddsOne(s.config, s.heap, item, e);
    } else {
      ScheduleAccounts(s, item, e);
    }
  }

  lemma PutAccounts(s: State, value: Value, score: Option<Time>, e: Entry)
    requires WellFormed(s.config, s.heap)
    ensures Accounted(Put(s, value, score), e) ==
            Accounted(s, e) + if e == Entry(value, ScoreOf(s, score)) then 1 else 0
  {
    var (s1, item) := Arrive(s, value, ScoreOf(s, score));
    if s1.waiters.getters != [] && item.timestamp < s1.now {
      SendAccounts(s1, item, e);
      var (s2, sent) := SendFrom(s1, item);
      if !sent { KeepAccounts(s2, item, e); }
    } else {
      KeepAccounts(s1, item, e);
    }
  }

  lemma GetAccounts(s: State, withScore: bool, timeout: Option<Time>, e: Entry)
    requires WellFormed(s.config, s.heap)
    ensures Accounted(Get(s, withScore, timeout).0, e) == Accounted(s, e)
  {
    PopRemovesOne(s.config, s.heap, e);
    PopKeepsWellFormed(s.config, s.heap);
    var (s1, popped) := PopFrom(s);
    if popped.Some? {
      if popped.value.timestamp > s1.now {
        ScheduleAccounts(s1, popped.value, e);
      } else {
        HandedSnoc(s1.waiters.delivered, Delivery(EntryOf(popped.value), None, s1.now), e);
      }
    }
  }

  lemma {:induction false} OnTimeAccounts(s: State, e: Entry)
    requires WellFormed(s.config, s.heap)
    ensures Accounted(OnTime(s), e) == Accounted(s, e) && OnTime(s).puts == s.puts
    decreases |s.waiters.getters|
  {
    if s.waiters.getters != [] {
      PopRemovesOne(s.config, s.heap, e);
      PopKeepsWellFormed(s.config, s.heap);
      var (s1, popped) := PopFrom(s);
      if popped.Some? {
        if popped.value.timestamp > s1.now {
          ScheduleAccounts(s1, popped.value, e);
        } else {
          SendAccounts(s1, popped.value, e);
          var (s2, sent) := SendFrom(s1, popped.value);
          if sent { OnTimeAccounts(s2, e); } else { PutItemAddsOne(s2.config, s2.heap, popped.value, e); }
        }
      }
    }
  }

  /** Whether an event puts this very entry. */
  ghost function Puts(s: State, ev: Event, e: Entry): nat {
    if ev.CallPut? && e == Entry(ev.value, ScoreOf(s, ev.score)) then 1 else 0
  }

  /** What a step puts, it accounts for; no step accounts for anything else. */
  lemma StepAccounts(s: State, ev: Event, e: Entry)
    requires WellFormed(s.config, s.heap) && Enabled(s, ev)
    ensures Accounted(Step(s, ev), e) == Accounted(s, e) + Puts(s, ev, e)
  {
    match ev
    case CallPut(value, score) => PutAccounts(s, value, score, e);
    case CallGet(withScore, timeout) => GetAccounts(s, withScore, timeout, e);
    case FireTimer(i) => OnTimeAccounts(s.(timers := Without(s.timers, i)), e);
    case _ =>
  }

  lemma StepRecordsPuts(s: State, ev: Event, e: Entry)
    requires WellFormed(s.config, s.heap) && Enabled(s, ev)
    ensures Step(s, ev).puts[e] == s.puts[e] + Puts(s, ev, e)
  {
    if ev.FireTimer? { OnTimeAccounts(s.(timers := Without(s.timers, ev.index)), e); }
  }

  lemma StepConserves(s: State, ev: Event)
    requires WellFormed(s.config, s.heap) && Conserved(s) && Enabled(s, ev)
    ensures Conserved(Step(s, ev))
  {
    var t := Step(s, ev);
    forall e: Entry ensures t.puts[e] == Accounted(t, e) {
      StepAccounts(s, ev, e);
      StepRecordsPuts(s, ev, e);
    }
  }

  /** One entry past the limit for every caller blocked in `put`. */
  ghost predicate Bounded(s: State) {
    0 < s.config.maxsize ==>
      Len(s.config, s.heap) <= s.config.maxsize - 1 + |s.waiters.putters|
  }

  ghost predicate PressureInv(s: State) {
    Bounded(s) && (s.waiters.putters != [] ==> Full(s.config, s.heap))
  }

  lemma {:induction false} SendReleases(w: Waiters, item: Item, full: bool, now: Time)
    ensures var (t, sent) := Send(w, item, full, now);
            t.putters == if sent && !full then [] else w.putters
    decreases |w.getters|
  {
    if w.getters != [] && !IsPending(w.getFutures, w.getters[0].future) {
      SendReleases(w.(getters := w.getters[1..]), item, full, now);
    }
  }

  lemma KeepKeepsPressure(s: State, item: Item)
    requires PressureInv(s)
    ensures PressureInv(Keep(s, item))
  {
    PutItemLengthens(s.config, s.heap, item);
    PutItemLengthens(s.config, s.heap, Scheduled(item, s.nextId));
  }

  lemma PutKeepsPressure(s: State, value: Value, score: Option<Time>)
    requires PressureInv(s)
    ensures PressureInv(Put(s, value, score))
  {
    var (s1, item) := Arrive(s, value, ScoreOf(s, score));
    if s1.waiters.getters != [] && item.timestamp < s1.now {
      SendReleases(s1.waiters, item, Full(s1.config, s1.heap), s1.now);
      var (s2, sent) := SendFrom(s1, item);
      if !sent { KeepKeepsPressure(s2, item); }
    } else {
      KeepKeepsPressure(s1, item);
    }
  }

  lemma GetKeepsPressure(s: State, withScore: bool, timeout: Option<Time>)
    requires WellFormed(s.config, s.heap) && PressureInv(s)
    ensures PressureInv(Get(s, withScore, timeout).0)
  {
    PopShortens(s.config, s.heap);
    PopKeepsWellFormed(s.config, s.heap);
    var (s1, popped) := PopFrom(s);
    if popped.Some? && popped.value.timestamp > s1.now {
      PutItemLengthens(s1.config, s1.heap, Scheduled(popped.value, s1.nextId));
    }
  }

  lemma {:induction false} OnTimeKeepsPressure(s: State)
    requires WellFormed(s.config, s.heap) && PressureInv(s)
    ensures PressureInv(OnTime(s))
    decreases |s.waiters.getters|
  {
    if s.waiters.getters != [] {
      PopShortens(s.config, s.heap);
      PopKeepsWellFormed(s.config, s.heap);
      var (s1, popped) := PopFrom(s);
      if popped.Some? {
        var item := popped.value;
        if item.timestamp > s1.now {
          PutItemLengthens(s1.config, s1.heap, Scheduled(item, s1.nextId));
        } else {
          SendReleases(s1.waiters, item, Full(s1.config, s1.heap), s1.now);
          var (s2, sent) := SendFrom(s1, item);
          if sent { OnTimeKeepsPressure(s2); } else { PutItemLengthens(s2.config, s2.heap, item); }
        }
      }
    }
  }

  lemma StepKeepsPressure(s: State, e: Event)
    requires WellFormed(s.config, s.heap) && PressureInv(s) && Enabled(s, e)
    ensures PressureInv(Step(s, e))
  {
    match e
    case CallPut(value, score) => PutKeepsPressure(s, value, score);
    case CallGet(withScore, timeout) => GetKeepsPressure(s, withScore, timeout);
    case FireTimer(i) => OnTimeKeepsPressure(s.(timers := Without(s.timers, i)));
    case _ =>
  }
}
