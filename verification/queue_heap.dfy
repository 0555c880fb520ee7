/** What the three overridden operations mean: a bag of entries for the timestamp queue and
    a finite map from value to timestamp for the unique queue, whatever stale duplicates the
    heap of the latter still holds. */
module QueueHeap {
  import opened Wrappers
  import opened QueueSpec

  ghost predicate DistinctIds(q: seq<Item>) {
    forall i, j :: 0 <= i < j < |q| ==> q[i].id != q[j].id
  }

  /** The heap holds distinct objects, among them every object of the index. */
  ghost predicate WellFormed(c: Config, h: Heap) {
    && DistinctIds(h.queue)
    && (if c.unique then forall v :: v in h.values ==> h.values[v].value == v && h.values[v] in h.queue
        else h.values == map[])
  }

  ghost predicate IdsBelow(h: Heap, n: nat) {
    forall item :: item in h.queue ==> item.id < n
  }

  ghost predicate NoneWithId(h: Heap, id: nat) {
    forall item :: item in h.queue ==> item.id != id
  }

  /** An item that the queue still has to deliver. */
  ghost predicate Live(c: Config, h: Heap, item: Item) {
    item in h.queue && IsCurrent(c, h, item)
  }

  ghost function CountIn(q: seq<Item>, e: Entry): nat {
    if q == [] then 0 else One(q[0], e) + CountIn(q[1..], e)
  }

  ghost function One(item: Item, e: Entry): nat {
    if EntryOf(item) == e then 1 else 0
  }

  /** How many times the queue still has to deliver an entry. */
  ghost function Copies(c: Config, h: Heap, e: Entry): nat {
    if !c.unique then CountIn(h.queue, e)
    else if e.value in h.values && h.values[e.value].timestamp == e.timestamp then 1
    else 0
  }

  lemma {:induction false} CountInWithout(q: seq<Item>, i: nat, e: Entry)
    requires i < |q|
    ensures CountIn(q, e) == CountIn(Without(q, i), e) + One(q[i], e)
  {
    if i == 0 {
      assert Without(q, 0) == q[1..];
    } else {
      CountInWithout(q[1..], i - 1, e);
      assert Without(q, i)[1..] == Without(q[1..], i - 1);
    }
  }

  lemma {:induction false} CountInSnoc(q: seq<Item>, item: Item, e: Entry)
    ensures CountIn(q + [item], e) == CountIn(q, e) + One(item, e)
  {
    if q != [] {
      CountInSnoc(q[1..], item, e);
      assert (q + [item])[1..] == q[1..] + [item];
    }
  }

  lemma WithoutMembers(q: seq<Item>, i: nat)
    requires i < |q| && DistinctIds(q)
    ensures DistinctIds(Without(q, i))
    ensures forall item :: item in Without(q, i) <==> item in q && item.id != q[i].id
  {
    var w := Without(q, i);
    forall item ensures item in w <==> item in q && item.id != q[i].id {
      if item in q && item.id != q[i].id {
        var j :| 0 <= j < |q| && q[j] == item;
        assert w[if j < i then j else j - 1] == item;
      }
      if item in w {
        var j :| 0 <= j < |w| && w[j] == item;
        assert q[if j < i then j else j + 1] == item;
      }
    }
  }

  lemma IdsIdentify(q: seq<Item>, a: Item, b: Item)
    requires DistinctIds(q) && a in q && b in q
    ensures a.id == b.id <==> a == b
  {
    var i :| 0 <= i < |q| && q[i] == a;
    var j :| 0 <= j < |q| && q[j] == b;
  }

  /** Dropping a heap entry that is not current changes nothing that is live. */
  lemma DropStale(c: Config, h: Heap, i: nat)
    requires WellFormed(c, h) && i < |h.queue| && !IsCurrent(c, h, h.queue[i])
    ensures var rest := h.(queue := Without(h.queue, i));
            && WellFormed(c, rest)
            && (forall item :: item in rest.queue ==> item in h.queue)
            && (forall item :: Live(c, rest, item) <==> Live(c, h, item))
  {
    WithoutMembers(h.queue, i);
    var rest := h.(queue := Without(h.queue, i));
    forall item ensures Live(c, rest, item) <==> Live(c, h, item) {
      if Live(c, h, item) { IdsIdentify(h.queue, item, h.queue[i]); }
    }
    forall v | v in h.values ensures h.values[v] in rest.queue {
      assert Live(c, h, h.values[v]);
    }
  }

  /** Taking out a current heap entry, and its key from the index. */
  lemma TakeCurrent(c: Config, h: Heap, i: nat)
    requires WellFormed(c, h) && i < |h.queue| && IsCurrent(c, h, h.queue[i])
    ensures var item := h.queue[i];
            var t := h.(queue := Without(h.queue, i), values := h.values - {item.value});
            && WellFormed(c, t) && NoneWithId(t, item.id)
            && (forall other :: other in t.queue ==> other in h.queue)
            && (forall other :: Live(c, t, other) <==> Live(c, h, other) && other != item)
  {
    var item := h.queue[i];
    WithoutMembers(h.queue, i);
    var t := h.(queue := Without(h.queue, i), values := h.values - {item.value});
    forall other ensures Live(c, t, other) <==> Live(c, h, other) && other != item {
      if other in h.queue { IdsIdentify(h.queue, other, item); }
    }
    if c.unique {
      forall v | v in t.values ensures t.values[v] in t.queue {
        IdsIdentify(h.queue, h.values[v], item);
      }
    }
  }

  /** `_pop` returns None exactly when nothing is live, and otherwise removes and returns one
      live item of minimum timestamp; everything else stays live and as it was. */
  lemma {:induction false} PopTakesMinimum(c: Config, h: Heap)
    requires WellFormed(c, h)
    ensures var (t, popped) := Pop(c, h);
            match popped
            case None => t.queue == [] && forall item :: !Live(c, h, item)
            case Some(item) =>
              && Live(c, h, item)
              && (forall other :: Live(c, h, other) ==> item.timestamp <= other.timestamp)
              && (forall other :: Live(c, t, other) <==> Live(c, h, other) && other != item)
    decreases |h.queue|
  {
    if h.queue != [] {
      var i := c.heapq(h.queue);
      if IsCurrent(c, h, h.queue[i]) {
        TakeCurrent(c, h, i);
        assert !c.unique ==> h.values - {h.queue[i].value} == h.values;
      } else {
        DropStale(c, h, i);
        PopTakesMinimum(c, h.(queue := Without(h.queue, i)));
      }
    }
  }

  /** What the later `_put` of a popped item relies on. */
  lemma {:induction false} PopKeepsWellFormed(c: Config, h: Heap)
    requires WellFormed(c, h)
    ensures var (t, popped) := Pop(c, h);
            && WellFormed(c, t)
            && (forall item :: item in t.queue ==> item in h.queue)
            && (popped.Some? ==> NoneWithId(t, popped.value.id) && popped.value in h.queue
                                 && (c.unique ==> popped.value.value !in t.values))
    decreases |h.queue|
  {
    if h.queue != [] {
      var i := c.heapq(h.queue);
      if IsCurrent(c, h, h.queue[i]) {
        TakeCurrent(c, h, i);
        assert !c.unique ==> h.values - {h.queue[i].value} == h.values;
      } else {
        DropStale(c, h, i);
        PopKeepsWellFormed(c, h.(queue := Without(h.queue, i)));
      }
    }
  }

  /** The same, counted: one copy of one entry leaves. */
  lemma {:induction false} PopRemovesOne(c: Config, h: Heap, e: Entry)
    requires WellFormed(c, h)
    ensures var (t, popped) := Pop(c, h);
            && t.overwritten == h.overwritten
            && match popped
               case None => Copies(c, h, e) == 0 == Copies(c, t, e)
               case Some(item) => Copies(c, h, e) == Copies(c, t, e) + One(item, e)
    decreases |h.queue|
  {
    if h.queue == [] {
      assert c.unique ==> forall v :: v !in h.values;
    } else {
      var i := c.heapq(h.queue);
      var item := h.queue[i];
      if !c.unique {
        CountInWithout(h.queue, i, e);
      } else if IsCurrent(c, h, item) {
        IdsIdentify(h.queue, h.values[item.value], item);
      } else {
        DropStale(c, h, i);
        PopRemovesOne(c, h.(queue := Without(h.queue, i)), e);
      }
    }
  }

  lemma {:induction false} PopShortens(c: Config, h: Heap)
    requires WellFormed(c, h)
    ensures var (t, popped) := Pop(c, h);
            Len(c, t) == if popped.Some? then Len(c, h) - 1 else Len(c, h)
    decreases |h.queue|
  {
    if h.queue != [] && c.unique {
      var i := c.heapq(h.queue);
      if IsCurrent(c, h, h.queue[i]) {
        LenAfterRemoval(h.values, h.queue[i].value);
      } else {
        DropStale(c, h, i);
        PopShortens(c, h.(queue := Without(h.queue, i)));
      }
    }
  }

  lemma LenAfterRemoval(values: map<Value, Item>, v: Value)
    requires v in values
    ensures |values - {v}| == |values| - 1
  {
    assert (values - {v}).Keys == values.Keys - {v};
    assert |values| == |values.Keys| && |values - {v}| == |(values - {v}).Keys|;
  }

  lemma LenAfterAssignment(values: map<Value, Item>, item: Item)
    ensures |values[item.value := item]| == if item.value in values then |values| else |values| + 1
  {
    var after := values[item.value := item];
    assert after.Keys == values.Keys + {item.value};
    assert |after| == |after.Keys| && |values| == |values.Keys|;
    if item.value in values { assert after.Keys == values.Keys; }
  }

  /** `_put` makes the item live; a live item of the same value stops being so. */
  lemma PutItemIsLive(c: Config, h: Heap, item: Item)
    requires WellFormed(c, h) && NoneWithId(h, item.id)
    ensures var t := PutItem(c, h, item);
            && WellFormed(c, t)
            && (forall other :: other in t.queue <==> other in h.queue || other == item)
            && (forall other :: Live(c, t, other) <==>
                  other == item || (Live(c, h, other) && !(c.unique && other.value == item.value)))
  {
    var t := PutItem(c, h, item);
    assert forall other :: other in t.queue <==> other in h.queue || other == item;
  }

  /** The same, counted: the resident and the overwritten copies together gain one. */
  lemma PutItemAddsOne(c: Config, h: Heap, item: Item, e: Entry)
    requires WellFormed(c, h)
    ensures var t := PutItem(c, h, item);
            Copies(c, t, e) + t.overwritten[e] == Copies(c, h, e) + h.overwritten[e] + One(item, e)
  {
    if !c.unique { CountInSnoc(h.queue, item, e); }
  }

  lemma PutItemLengthens(c: Config, h: Heap, item: Item)
    ensures Len(c, PutItem(c, h, item)) ==
            if c.unique && item.value in h.values then Len(c, h) else Len(c, h) + 1
  {
    if c.unique { LenAfterAssignment(h.values, item); }
  }

  lemma {:induction false} PopDropsKey(c: Config, h: Heap)
    requires c.unique
    ensures var (t, popped) := Pop(c, h);
            match popped
            case None => t.values == h.values
            case Some(item) => item.value in h.values && h.values[item.value].id == item.id
                               && t.values == h.values - {item.value}
    decreases |h.queue|
  {
    if h.queue != [] && !IsCurrent(c, h, h.queue[c.heapq(h.queue)]) {
      PopDropsKey(c, h.(queue := Without(h.queue, c.heapq(h.queue))));
    }
  }
}
