/** The unique queue refines a finite map from value to timestamp.  The heap keeps every
    stale duplicate; none of it shows. */
module QueueUnique {
  import opened Wrappers
  import opened QueueSpec
  import opened QueueHeap
  import opened QueueWakeup
  import opened QueueFutures

  type Times = map<Value, Time>

  /** The finite map that a unique queue stands for. */
  ghost function AsMap(h: Heap): Times {
    map v | v in h.values :: h.values[v].timestamp
  }

  /** `_put` is assignment. */
  lemma PutIsAssignment(c: Config, h: Heap, item: Item)
    requires c.unique
    ensures AsMap(PutItem(c, h, item)) == AsMap(h)[item.value := item.timestamp]
  {
  }

  /** `__len__` is the number of keys, and `empty` says whether there are none. */
  lemma LenIsSize(c: Config, h: Heap)
    requires c.unique
    ensures Len(c, h) == |AsMap(h)| && (Empty(c, h) <==> AsMap(h) == map[])
  {
    assert AsMap(h).Keys == h.values.Keys;
    assert |AsMap(h)| == |AsMap(h).Keys| && |h.values| == |h.values.Keys|;
  }

  /** `_pop` deletes a key of least timestamp, or finds the map empty: it reports nothing
      exactly when there is nothing. */
  lemma PopIsDeleteMin(c: Config, h: Heap)
    requires WellFormed(c, h) && c.unique
    ensures var (t, popped) := Pop(c, h);
            match popped
            case None => AsMap(h) == map[] == AsMap(t)
            case Some(item) =>
              && item.value in AsMap(h) && AsMap(h)[item.value] == item.timestamp
              && (forall v :: v in AsMap(h) ==> item.timestamp <= AsMap(h)[v])
              && AsMap(t) == AsMap(h) - {item.value}
  {
    PopTakesMinimum(c, h);
    PopDropsKey(c, h);
    forall v | v in h.values ensures Live(c, h, h.values[v]) {}
  }

  /** Taking the item out and putting it back, rescheduled or not, leaves the map alone. */
  lemma PutBackIsInvisible(c: Config, h: Heap, again: Item)
    requires WellFormed(c, h) && c.unique && Pop(c, h).1.Some?
    requires EntryOf(again) == EntryOf(Pop(c, h).1.value)
    ensures AsMap(PutItem(c, Pop(c, h).0, again)) == AsMap(h)
  {
    PopIsDeleteMin(c, h);
    PutIsAssignment(c, Pop(c, h).0, again);
  }

  /** `put` assigns, unless it hands the value over at once: then the map keeps whatever it
      has for that value. */
  lemma PutOnMap(s: State, value: Value, score: Option<Time>)
    requires s.config.unique && DistinctFutures(s.waiters.getters)
    ensures var t := Put(s, value, score);
            AsMap(t.heap) == if Waiting(s.waiters) != [] && ScoreOf(s, score) < s.now then AsMap(s.heap)
                             else AsMap(s.heap)[value := ScoreOf(s, score)]
  {
    var (s1, item) := Arrive(s, value, ScoreOf(s, score));
    SendServesFirst(s1.waiters, item, Full(s1.config, s1.heap), s1.now);
    PutIsAssignment(s.config, s.heap, item);
    PutIsAssignment(s.config, s.heap, Scheduled(item, s1.nextId));
  }

  /** `get` deletes and returns a least entry if that is due; otherwise it changes nothing
      in the map, which then is empty or holds only later entries. */
  lemma GetOnMap(s: State, withScore: bool, timeout: Option<Time>)
    requires HeapInv(s) && s.config.unique
    ensures var (t, got) := Get(s, withScore, timeout);
            match got
            case None => AsMap(t.heap) == AsMap(s.heap) && forall v :: v in AsMap(s.heap) ==> s.now < AsMap(s.heap)[v]
            case Some(item) =>
              && item.value in AsMap(s.heap) && AsMap(s.heap)[item.value] == item.timestamp <= s.now
              && (forall v :: v in AsMap(s.heap) ==> item.timestamp <= AsMap(s.heap)[v])
              && AsMap(t.heap) == AsMap(s.heap) - {item.value}
  {
    PopIsDeleteMin(s.config, s.heap);
    var (s1, popped) := PopFrom(s);
    if popped.Some? && s.now < popped.value.timestamp {
      PutBackIsInvisible(s.config, s.heap, Scheduled(popped.value, s1.nextId));
    }
  }

  /** An entry leaves the map: one of least timestamp, and due. */
  ghost predicate TakesLeast(a: Times, d: Delivery, now: Time) {
    && d.entry.value in a && a[d.entry.value] == d.entry.timestamp <= now == d.at
    && forall v :: v in a ==> d.entry.timestamp <= a[v]
  }

  /** A run of deliveries, each of an entry that is least and due when it leaves. */
  ghost predicate TakesAll(a: Times, ds: seq<Delivery>, now: Time, b: Times)
    decreases |ds|
  {
    if ds == [] then a == b
    else TakesLeast(a, ds[0], now) && TakesAll(a - {ds[0].entry.value}, ds[1..], now, b)
  }

  /** `_on_time` deletes from the map the entries it delivers, and nothing else. */
  lemma {:induction false} OnTimeOnMap(s: State)
    requires HeapInv(s) && s.config.unique && DistinctFutures(s.waiters.getters)
    ensures s.waiters.delivered <= OnTime(s).waiters.delivered
    ensures TakesAll(AsMap(s.heap), NewDeliveries(s.waiters, OnTime(s).waiters), s.now, AsMap(OnTime(s).heap))
    decreases |s.waiters.getters|
  {
    hide AsMap, Pop, Send, PutItem;
    if s.waiters.getters != [] {
      PopIsDeleteMin(s.config, s.heap);
      PopKeepsWellFormed(s.config, s.heap);
      var (s1, popped) := PopFrom(s);
      if popped.Some? {
        var item := popped.value;
        if item.timestamp > s1.now {
          PutBackIsInvisible(s.config, s.heap, Scheduled(item, s1.nextId));
        } else {
          SendServesFirst(s1.waiters, item, Full(s1.config, s1.heap), s1.now);
          var (s2, sent) := SendFrom(s1, item);
          if sent {
            OnTimeOnMap(s2);
            var ds := NewDeliveries(s.waiters, OnTime(s).waiters);
            assert ds[1..] == NewDeliveries(s2.waiters, OnTime(s).waiters);
          } else {
            PutBackIsInvisible(s.config, s.heap, item);
          }
        }
      }
    }
  }

  /** Every other event leaves the map alone. */
  lemma QuietOnMap(s: State, e: Event)
    requires Enabled(s, e) && (e.FireTimeout? || e.CancelGetter? || e.Tick?)
    ensures AsMap(Step(s, e).heap) == AsMap(s.heap)
  {
  }
}
