/** The futures: who waits, who is served, in which order, and that nothing settled ever
    changes again. */
module QueueFutures {
  import opened Wrappers
  import opened QueueSpec
  import opened QueueHeap
  import opened QueueWakeup

  ghost predicate DistinctFutures(getters: seq<Getter>) {
    forall i, j :: 0 <= i < j < |getters| ==> getters[i].future != getters[j].future
  }

  ghost predicate Queued(getters: seq<Getter>, f: nat) {
    exists g :: g in getters && g.future == f
  }

  /** A waiter nobody has settled is still in line, and everyone in line is a known future. */
  ghost predicate GettersInv(w: Waiters) {
    && DistinctFutures(w.getters)
    && (forall g :: g in w.getters ==> g.future in w.getFutures)
    && (forall f :: f in w.getFutures && w.getFutures[f] == Pending ==> Queued(w.getters, f))
  }

  /** A call blocked in `put` is exactly one that is still in line; the others were released. */
  ghost predicate PuttersInv(w: Waiters) {
    && (forall i, j :: 0 <= i < j < |w.putters| ==> w.putters[i] != w.putters[j])
    && (forall p :: p in w.putters ==> p in w.putFutures)
    && (forall p :: p in w.putFutures ==>
          w.putFutures[p] == if p in w.putters then Pending else Released)
  }

  ghost predicate Honours(future: Future, e: Entry) {
    future.Got? && future.value == e.value && (future.score.Some? ==> future.score.value == e.timestamp)
  }

  /** Every delivery was due when it was made, and the future it went to holds its value. */
  ghost predicate SoundDelivery(w: Waiters, d: Delivery, now: Time) {
    && d.entry.timestamp <= d.at <= now
    && (d.to.Some? ==> d.to.value in w.getFutures && Honours(w.getFutures[d.to.value], d.entry))
  }

  ghost predicate LogInv(w: Waiters, now: Time) {
    && (forall d :: d in w.delivered ==> SoundDelivery(w, d, now))
    && (forall i, j :: 0 <= i < j < |w.delivered| && w.delivered[i].to.Some? ==>
          w.delivered[i].to != w.delivered[j].to)
    && (forall f :: f in w.getFutures && w.getFutures[f].Got? ==>
          exists d :: d in w.delivered && d.to == Some(f))
  }

  ghost predicate IdsInv(w: Waiters, n: nat) {
    (forall f :: f in w.getFutures ==> f < n) && (forall p :: p in w.putFutures ==> p < n)
  }

  ghost predicate WaitersInv(w: Waiters, n: nat, now: Time) {
    GettersInv(w) && PuttersInv(w) && LogInv(w, now) && IdsInv(w, n)
  }

  ghost predicate FuturesInv(s: State) {
    WaitersInv(s.waiters, s.nextId, s.now)
  }

  lemma ReleaseKeepsInv(w: Waiters, full: bool, n: nat, now: Time)
    requires WaitersInv(w, n, now)
    ensures WaitersInv(ReleasePutters(w, full), n, now)
  {
    var t := ReleasePutters(w, full);
    assert forall d :: SoundDelivery(w, d, now) <==> SoundDelivery(t, d, now);
  }

  lemma ResolveKeepsGetters(w: Waiters, item: Item, now: Time)
    requires GettersInv(w) && w.getters != []
    ensures GettersInv(Resolve(w.(getters := w.getters[1..]), w.getters[0], item, now))
  {
    var g := w.getters[0];
    var t := Resolve(w.(getters := w.getters[1..]), g, item, now);
    forall f | f in t.getFutures && t.getFutures[f] == Pending ensures Queued(t.getters, f) {
      var other :| other in w.getters && other.future == f;
      assert other in t.getters;
    }
  }

  lemma ResolveKeepsLog(w: Waiters, g: Getter, item: Item, now: Time)
    requires LogInv(w, now) && IsPending(w.getFutures, g.future) && item.timestamp <= now
    ensures LogInv(Resolve(w, g, item, now), now)
  {
    var t := Resolve(w, g, item, now);
    var last := Delivery(EntryOf(item), Some(g.future), now);
    assert forall d :: d in w.delivered ==> d.to != Some(g.future) && SoundDelivery(w, d, now);
    forall d | d in t.delivered ensures SoundDelivery(t, d, now) {
      assert d in w.delivered || d == last;
    }
    forall i, j | 0 <= i < j < |t.delivered| && t.delivered[i].to.Some?
      ensures t.delivered[i].to != t.delivered[j].to
    {
      assert t.delivered[i] == w.delivered[i] && w.delivered[i] in w.delivered;
    }
    forall f | f in t.getFutures && t.getFutures[f].Got? ensures exists d :: d in t.delivered && d.to == Some(f) {
      if f == g.future {
        assert last in t.delivered;
      } else {
        var d :| d in w.delivered && d.to == Some(f);
        assert d in t.delivered;
      }
    }
  }

  lemma DropSettled(w: Waiters)
    requires GettersInv(w) && w.getters != [] && !IsPending(w.getFutures, w.getters[0].future)
    ensures GettersInv(w.(getters := w.getters[1..]))
  {
    var t := w.(getters := w.getters[1..]);
    forall f | f in t.getFutures && t.getFutures[f] == Pending ensures Queued(t.getters, f) {
      var other :| other in w.getters && other.future == f;
      assert other in t.getters;
    }
  }

  lemma {:induction false} SendKeepsInv(w: Waiters, item: Item, full: bool, n: nat, now: Time)
    requires WaitersInv(w, n, now) && item.timestamp <= now
    ensures WaitersInv(Send(w, item, full, now).0, n, now)
    decreases |w.getters|
  {
    if w.getters != [] {
      var g := w.getters[0];
      var rest := w.(getters := w.getters[1..]);
      if IsPending(w.getFutures, g.future) {
        ResolveKeepsGetters(w, item, now);
        ResolveKeepsLog(rest, g, item, now);
        ReleaseKeepsInv(Resolve(rest, g, item, now), full, n, now);
      } else {
        DropSettled(w);
        SendKeepsInv(rest, item, full, n, now);
      }
    }
  }

  lemma WaitKeepsInv(s: State, withScore: bool, timeout: Option<Time>)
    requires FuturesInv(s)
    ensures FuturesInv(Wait(s, withScore, timeout))
  {
    var w, t := s.waiters, Wait(s, withScore, timeout).waiters;
    var mine := Getter(withScore, s.nextId);
    assert mine in t.getters;
    assert forall g :: g in w.getters ==> g in t.getters;
    forall f | f in t.getFutures && t.getFutures[f] == Pending ensures Queued(t.getters, f) {
      if f != s.nextId {
        var g :| g in w.getters && g.future == f;
        assert g in t.getters;
      }
    }
    assert forall d :: d in w.delivered ==> SoundDelivery(w, d, s.now);
    forall d | d in t.delivered ensures SoundDelivery(t, d, s.now) {}
  }

  lemma ServeKeepsInv(s: State, item: Item)
    requires FuturesInv(s) && item.timestamp <= s.now
    ensures FuturesInv(Serve(s, item))
  {
    var w := s.waiters;
    var last := Delivery(EntryOf(item), None, s.now);
    var t := w.(delivered := w.delivered + [last]);
    forall d | d in t.delivered ensures SoundDelivery(t, d, s.now) {
      assert d in w.delivered ==> SoundDelivery(w, d, s.now);
    }
    forall f | f in t.getFutures && t.getFutures[f].Got? ensures exists d :: d in t.delivered && d.to == Some(f) {
      var d :| d in w.delivered && d.to == Some(f);
      assert d in t.delivered;
    }
    ReleaseKeepsInv(t, Full(s.config, s.heap), s.nextId, s.now);
  }

  lemma BlockKeepsInv(s: State)
    requires FuturesInv(s)
    ensures FuturesInv(BlockIfFull(s))
  {
    var t := BlockIfFull(s);
    assert forall p :: p in s.waiters.putters ==> p != s.nextId;
    assert forall i :: 0 <= i < |s.waiters.putters| ==> s.waiters.putters[i] in s.waiters.putters;
    assert forall d :: SoundDelivery(s.waiters, d, s.now) <==> SoundDelivery(t.waiters, d, s.now);
  }

  lemma KeepKeepsInv(s: State, item: Item)
    requires FuturesInv(s)
    ensures FuturesInv(Keep(s, item))
  {
    BlockKeepsInv(if s.waiters.getters == [] then s.(heap := PutItem(s.config, s.heap, item))
                  else Schedule(s, item));
  }

  lemma PutKeepsFutures(s: State, value: Value, score: Option<Time>)
    requires FuturesInv(s)
    ensures FuturesInv(Put(s, value, score))
  {
    var (s1, item) := Arrive(s, value, ScoreOf(s, score));
    assert FuturesInv(s1);
    if s1.waiters.getters != [] && item.timestamp < s1.now {
      SendKeepsInv(s1.waiters, item, Full(s1.config, s1.heap), s1.nextId, s1.now);
      var (s2, sent) := SendFrom(s1, item);
      if !sent { KeepKeepsInv(s2, item); }
    } else {
      KeepKeepsInv(s1, item);
    }
  }

  lemma GetKeepsFutures(s: State, withScore: bool, timeout: Option<Time>)
    requires FuturesInv(s)
    ensures FuturesInv(Get(s, withScore, timeout).0)
  {
    var (s1, popped) := PopFrom(s);
    if popped == None {
      WaitKeepsInv(s1, withScore, timeout);
    } else if popped.value.timestamp > s1.now {
      WaitKeepsInv(Schedule(s1, popped.value), withScore, timeout);
    } else {
      ServeKeepsInv(s1, popped.value);
    }
  }

  lemma MoreIds(w: Waiters, n: nat, m: nat, now: Time)
    requires WaitersInv(w, n, now) && n <= m
    ensures WaitersInv(w, m, now)
  {
  }

  lemma {:induction false} OnTimeKeepsFutures(s: State)
    requires FuturesInv(s)
    ensures FuturesInv(OnTime(s))
    decreases |s.waiters.getters|
  {
    hide WaitersInv;
    if s.waiters.getters != [] {
      var (s1, popped) := PopFrom(s);
      if popped.Some? && popped.value.timestamp <= s1.now {
        SendKeepsInv(s1.waiters, popped.value, Full(s1.config, s1.heap), s1.nextId, s1.now);
        var (s2, sent) := SendFrom(s1, popped.value);
        if sent { OnTimeKeepsFutures(s2); }
      } else {
        MoreIds(s.waiters, s.nextId, OnTime(s).nextId, s.now);
      }
    }
  }

  lemma SettleKeepsInv(s: State, f: nat, how: Future)
    requires FuturesInv(s) && (how == TimedOut || how == Cancelled)
    ensures FuturesInv(Settle(s, f, how))
  {
    var t := Settle(s, f, how);
    forall d | d in t.waiters.delivered ensures SoundDelivery(t.waiters, d, s.now) {
      assert SoundDelivery(s.waiters, d, s.now);
    }
  }

  lemma StepKeepsFutures(s: State, e: Event)
    requires FuturesInv(s) && Enabled(s, e)
    ensures FuturesInv(Step(s, e))
  {
    match e
    case CallPut(value, score) => PutKeepsFutures(s, value, score);
    case CallGet(withScore, timeout) => GetKeepsFutures(s, withScore, timeout);
    case FireTimer(i) => OnTimeKeepsFutures(s.(timers := Without(s.timers, i)));
    case FireTimeout(f) => SettleKeepsInv(s.(timeouts := s.timeouts - {f}), f, TimedOut);
    case CancelGetter(f) => SettleKeepsInv(s, f, Cancelled);
    case Tick(t) =>
      assert forall d :: SoundDelivery(s.waiters, d, s.now) ==> SoundDelivery(s.waiters, d, t);
  }

  // ---------- Nothing is settled twice ----------

  /** No future that was settled has a different outcome later, and the history only grows. */
  ghost predicate OnlySettles(w: Waiters, t: Waiters) {
    && (forall f :: f in w.getFutures ==> f in t.getFutures)
    && (forall f :: f in w.getFutures && w.getFutures[f] != Pending ==> t.getFutures[f] == w.getFutures[f])
    && (forall p :: p in w.putFutures ==> p in t.putFutures)
    && (forall p :: p in w.putFutures && w.putFutures[p] != Pending ==> t.putFutures[p] == w.putFutures[p])
    && w.delivered <= t.delivered
  }

  lemma {:induction false} SendOnlySettles(w: Waiters, item: Item, full: bool, now: Time)
    requires PuttersInv(w)
    ensures OnlySettles(w, Send(w, item, full, now).0) && PuttersInv(Send(w, item, full, now).0)
    decreases |w.getters|
  {
    if w.getters != [] && !IsPending(w.getFutures, w.getters[0].future) {
      SendOnlySettles(w.(getters := w.getters[1..]), item, full, now);
    }
  }

  lemma {:induction false} OnTimeOnlySettles(s: State)
    requires PuttersInv(s.waiters)
    ensures OnlySettles(s.waiters, OnTime(s).waiters)
    decreases |s.waiters.getters|
  {
    if s.waiters.getters != [] {
      var (s1, popped) := PopFrom(s);
      if popped.Some? && popped.value.timestamp <= s1.now {
        SendOnlySettles(s1.waiters, popped.value, Full(s1.config, s1.heap), s1.now);
        var (s2, sent) := SendFrom(s1, popped.value);
        if sent { OnTimeOnlySettles(s2); }
      }
    }
  }

  lemma KeepOnlySettles(s: State, item: Item)
    requires IdsInv(s.waiters, s.nextId)
    ensures OnlySettles(s.waiters, Keep(s, item).waiters)
  {
  }

  lemma OnlySettlesTrans(u: Waiters, v: Waiters, w: Waiters)
    requires OnlySettles(u, v) && OnlySettles(v, w)
    ensures OnlySettles(u, w)
  {
  }

  lemma PutOnlySettles(s: State, value: Value, score: Option<Time>)
    requires FuturesInv(s)
    ensures OnlySettles(s.waiters, Put(s, value, score).waiters)
  {
    var (s1, item) := Arrive(s, value, ScoreOf(s, score));
    if s1.waiters.getters != [] && item.timestamp < s1.now {
      SendOnlySettles(s1.waiters, item, Full(s1.config, s1.heap), s1.now);
      var (s2, sent) := SendFrom(s1, item);
      if !sent {
        KeepOnlySettles(s2, item);
        OnlySettlesTrans(s1.waiters, s2.waiters, Keep(s2, item).waiters);
      }
    } else {
      KeepOnlySettles(s1, item);
    }
  }

  lemma GetOnlySettles(s: State, withScore: bool, timeout: Option<Time>)
    requires FuturesInv(s)
    ensures OnlySettles(s.waiters, Get(s, withScore, timeout).0.waiters)
  {
    var (s1, popped) := PopFrom(s);
    if popped.Some? && popped.value.timestamp <= s1.now {
      assert OnlySettles(s1.waiters, Serve(s1, popped.value).waiters);
    } else {
      var s2 := if popped.Some? then Schedule(s1, popped.value) else s1;
      assert OnlySettles(s2.waiters, Wait(s2, withScore, timeout).waiters);
    }
  }

  /** Timeouts, cancellations, direct hand-offs and timers together settle every future at
      most once, and never the future of somebody who was not waiting. */
  lemma StepOnlySettles(s: State, e: Event)
    requires FuturesInv(s) && Enabled(s, e)
    ensures OnlySettles(s.waiters, Step(s, e).waiters)
  {
    match e
    case CallPut(value, score) => PutOnlySettles(s, value, score);
    case CallGet(withScore, timeout) => GetOnlySettles(s, withScore, timeout);
    case FireTimer(i) => OnTimeOnlySettles(s.(timers := Without(s.timers, i)));
    case _ =>
  }

  // ---------- Arrival order ----------

  /** The futures still waiting, in arrival order. */
  ghost function PendingOf(getters: seq<Getter>, futures: map<nat, Future>): seq<nat> {
    if getters == [] then []
    else (if IsPending(futures, getters[0].future) then [getters[0].future] else [])
         + PendingOf(getters[1..], futures)
  }

  ghost function Waiting(w: Waiters): seq<nat> {
    PendingOf(w.getters, w.getFutures)
  }

  lemma {:induction false} PendingOfOthers(getters: seq<Getter>, futures: map<nat, Future>, f: nat, x: Future)
    requires forall g :: g in getters ==> g.future != f
    ensures PendingOf(getters, futures[f := x]) == PendingOf(getters, futures)
  {
    if getters != [] { PendingOfOthers(getters[1..], futures, f, x); }
  }

  /** `_send` serves the first getter still waiting, and fails only when there is none. */
  lemma {:induction false} SendServesFirst(w: Waiters, item: Item, full: bool, now: Time)
    requires DistinctFutures(w.getters)
    ensures var (t, sent) := Send(w, item, full, now);
            && DistinctFutures(t.getters)
            && (sent <==> Waiting(w) != [])
            && (if sent then
                  && Waiting(t) == Waiting(w)[1..]
                  && t.delivered == w.delivered + [Delivery(EntryOf(item), Some(Waiting(w)[0]), now)]
                else Waiting(t) == [] && t.delivered == w.delivered)
    decreases |w.getters|
  {
    if w.getters != [] {
      var g := w.getters[0];
      var rest := w.(getters := w.getters[1..]);
      if IsPending(w.getFutures, g.future) {
        PendingOfOthers(rest.getters, w.getFutures, g.future, Answer(g.withScore, item));
        assert Waiting(w)[1..] == Waiting(rest);
      } else {
        SendServesFirst(rest, item, full, now);
      }
    }
  }

  /** The deliveries of one `_on_time` run. */
  ghost function NewDeliveries(w: Waiters, t: Waiters): seq<Delivery>
    requires w.delivered <= t.delivered
  {
    t.delivered[|w.delivered|..]
  }

  /** The getters served are the first ones still waiting, in arrival order, with due entries
      of nondecreasing timestamp, none of them later than anything left behind. */
  ghost predicate ServedInOrder(s: State, t: State, floor: Time) {
    && s.waiters.delivered <= t.waiters.delivered
    && var ds := NewDeliveries(s.waiters, t.waiters);
    && |ds| <= |Waiting(s.waiters)|
    && Waiting(t.waiters) == Waiting(s.waiters)[|ds|..]
    && (forall i :: 0 <= i < |ds| ==>
          && ds[i].to == Some(Waiting(s.waiters)[i])
          && floor <= ds[i].entry.timestamp <= s.now == ds[i].at)
    && (forall i, j :: 0 <= i < j < |ds| ==> ds[i].entry.timestamp <= ds[j].entry.timestamp)
    && (forall i, item :: 0 <= i < |ds| && IsLive(t, item) ==> ds[i].entry.timestamp <= item.timestamp)
  }

  ghost predicate LiveFrom(s: State, floor: Time) {
    forall item :: IsLive(s, item) ==> floor <= item.timestamp
  }

  ghost predicate NothingDue(s: State) {
    forall item :: IsLive(s, item) ==> s.now < item.timestamp
  }

  ghost predicate ReadyToServe(s: State, floor: Time) {
    HeapInv(s) && Armed(s) && DistinctFutures(s.waiters.getters) && LiveFrom(s, floor)
  }

  /** One `_on_time` run, exactly: in order, as above, and it stops only when nobody is left
      waiting or nothing left is due. */
  lemma {:induction false} OnTimeServes(s: State, floor: Time)
    requires ReadyToServe(s, floor)
    ensures var t := OnTime(s);
            && ServedInOrder(s, t, floor) && LiveFrom(t, floor)
            && (Waiting(t.waiters) == [] || NothingDue(t))
    decreases |s.waiters.getters|
  {
    if s.waiters.getters == [] {
      ServedNobody(s, s, floor);
    } else {
      PopKeepsHeapInv(s);
      var (s1, popped) := PopFrom(s);
      if popped == None {
        ServedNobody(s, s1, floor);
      } else if popped.value.timestamp > s1.now {
        RescheduleCovers(s, popped.value);
        ScheduleKeepsFloor(s1, popped.value, floor);
        ServedNobody(s, Schedule(s1, popped.value), floor);
      } else {
        SendServesFirst(s1.waiters, popped.value, Full(s1.config, s1.heap), s1.now);
        var (s2, sent) := SendFrom(s1, popped.value);
        if sent {
          assert ReadyToServe(s2, popped.value.timestamp);
          OnTimeServes(s2, popped.value.timestamp);
          ServedFirst(s, s2, OnTime(s2), popped.value, floor);
        } else {
          PutBackKeepsFloor(s2, popped.value, floor);
          ServedNobody(s, OnTime(s), floor);
        }
      }
    }
  }

  lemma ScheduleKeepsFloor(s: State, item: Item, floor: Time)
    requires HeapInv(s) && NoneWithId(s.heap, item.id) && LiveFrom(s, floor) && floor <= item.timestamp
    ensures LiveFrom(Schedule(s, item), floor)
  {
    PutItemIsLive(s.config, s.heap, Scheduled(item, s.nextId));
  }

  lemma PutBackKeepsFloor(s: State, item: Item, floor: Time)
    requires HeapInv(s) && NoneWithId(s.heap, item.id) && LiveFrom(s, floor) && floor <= item.timestamp
    ensures LiveFrom(s.(heap := PutItem(s.config, s.heap, item)), floor)
  {
    PutItemIsLive(s.config, s.heap, item);
  }

  lemma ServedNobody(s: State, t: State, floor: Time)
    requires t.waiters.delivered == s.waiters.delivered && Waiting(t.waiters) == Waiting(s.waiters)
    ensures ServedInOrder(s, t, floor)
  {
    assert NewDeliveries(s.waiters, t.waiters) == [];
  }

  /** Putting one delivery in front of a run that is in order. */
  lemma ServedFirst(s: State, s2: State, t: State, item: Item, floor: Time)
    requires Waiting(s.waiters) != [] && s2.now == s.now && floor <= item.timestamp <= s.now
    requires s2.waiters.delivered ==
             s.waiters.delivered + [Delivery(EntryOf(item), Some(Waiting(s.waiters)[0]), s.now)]
    requires Waiting(s2.waiters) == Waiting(s.waiters)[1..]
    requires ServedInOrder(s2, t, item.timestamp)
    requires forall other :: IsLive(t, other) ==> item.timestamp <= other.timestamp
    ensures ServedInOrder(s, t, floor)
  {
    var ds := NewDeliveries(s.waiters, t.waiters);
    var ds2 := NewDeliveries(s2.waiters, t.waiters);
    assert ds == [Delivery(EntryOf(item), Some(Waiting(s.waiters)[0]), s.now)] + ds2;
    assert Waiting(s2.waiters)[|ds2|..] == Waiting(s.waiters)[|ds|..];
  }
}
