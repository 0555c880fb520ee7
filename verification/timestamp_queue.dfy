/** The queue classes as they are written: fields updated in place, loops over the deques.
    Each method is one code segment between two awaits and is proved to do exactly what
    `QueueSpec` says; what that amounts to over whole runs is proved in `QueueRuns`. */
module TimestampQueues {
  import opened Wrappers
  import opened QueueSpec

  /** `TimestampQueue`, or `UniqueQueue` if `config.unique`. The event loop's clock, its
      pending callbacks and the state of the futures are fields as well. */
  class TimestampQueue {
    const config: Config
    var now: Time
    var nextId: nat
    var queue: seq<Item>
    var values: map<Value, Item>
    var getters: seq<Getter>
    var putters: seq<nat>
    var getFutures: map<nat, Future>
    var putFutures: map<nat, Future>
    var timers: seq<Time>
    var timeouts: map<nat, Time>
    ghost var puts: multiset<Entry>
    ghost var delivered: seq<Delivery>
    ghost var overwritten: multiset<Entry>

    ghost function View(): State
      reads this
    {
      State(config, now, nextId, Heap(queue, values, overwritten),
            Waiters(getters, putters, getFutures, putFutures, delivered), timers, timeouts, puts)
    }

    constructor (config: Config, now: Time)
      ensures View() == Initial(config, now)
    {
      this.config := config;
      this.now := now;
      nextId := 0;
      queue, values := [], map[];
      getters, putters := [], [];
      getFutures, putFutures := map[], map[];
      timers, timeouts := [], map[];
      puts, delivered, overwritten := multiset{}, [], multiset{};
    }

    method IsEmpty() returns (empty: bool)
      ensures empty == Empty(config, View().heap)
    {
      return if config.unique then values == map[] else queue == [];
    }

    method IsFull() returns (full: bool)
      ensures full == Full(config, View().heap)
    {
      if 0 >= config.maxsize {
        return false;
      }
      return (if config.unique then |values| else |queue|) >= config.maxsize;
    }

    /** `heapq.heappop` */
    method HeapPop() returns (item: Item)
      requires queue != []
      modifies this`queue
      ensures var i := config.heapq(old(queue));
              i < |old(queue)| && item == old(queue)[i] && queue == Without(old(queue), i)
    {
      var i := config.heapq(queue);
      item := queue[i];
      queue := queue[..i] + queue[i + 1..];
    }

    method PopItem() returns (popped: Option<Item>)
      modifies this`queue, this`values
      ensures var (t, taken) := PopFrom(old(View())); View() == t && popped == taken
    {
      if !config.unique {
        if queue == [] {
          return None;
        }
        var item := HeapPop();
        return Some(item);
      }
      ghost var start := View().heap;
      while queue != []
        invariant Pop(config, View().heap) == Pop(config, start)
        invariant values == start.values
        decreases |queue|
      {
        var item := HeapPop();
        if item.value in values && item.id == values[item.value].id {
          values := values - {item.value};
          return Some(item);
        }
      }
      return None;
    }

    /** `_put` */
    method Push(item: Item)
      modifies this`queue, this`values, this`overwritten
      ensures View() == old(View()).(heap := PutItem(config, old(View()).heap, item))
    {
      queue := queue + [item];
      if config.unique {
        if item.value in values {
          overwritten := overwritten + multiset{EntryOf(values[item.value])};
        }
        values := values[item.value := item];
      }
    }

    method ScheduleItem(item: Item)
      modifies this`queue, this`values, this`overwritten, this`timers, this`nextId
      ensures View() == Schedule(old(View()), item)
    {
      hide PutItem;
      if item.scheduled {
        Push(item);
      } else {
        var again := Item(nextId, item.value, item.timestamp, true);
        Push(again);
        timers := timers + [item.timestamp];
      }
      nextId := nextId + 1;
    }

    /** `_release_putter` */
    method ReleasePutter()
      modifies this`putters, this`putFutures
      ensures View() == old(View()).(waiters := ReleasePutters(old(View()).waiters, Full(config, old(View()).heap)))
    {
      var full := IsFull();
      if !full {
        while putters != []
          invariant ReleaseAll(putFutures, putters) == ReleaseAll(old(putFutures), old(putters))
          decreases |putters|
        {
          var p := putters[0];
          ghost var before := ReleaseAll(putFutures, putters);
          if p in putFutures {
            putFutures := putFutures[p := Released];
          }
          putters := putters[1..];
          assert ReleaseAll(putFutures, putters) == before;
        }
      }
    }

    method SendItem(item: Item) returns (sent: bool)
      modifies this`getters, this`putters, this`getFutures, this`putFutures, this`delivered
      ensures var (t, ok) := SendFrom(old(View()), item); View() == t && sent == ok
    {
      hide Full, ReleasePutters;
      ghost var start := View();
      while getters != []
        invariant View() == start.(waiters := start.waiters.(getters := getters))
        invariant Send(View().waiters, item, Full(config, start.heap), now)
               == Send(start.waiters, item, Full(config, start.heap), now)
        decreases |getters|
      {
        var g := getters[0];
        getters := getters[1..];
        if g.future !in getFutures || getFutures[g.future] != Pending {
          continue;
        }
        getFutures := getFutures[g.future := if g.withScore then Got(item.value, Some(item.timestamp))
                                             else Got(item.value, None)];
        delivered := delivered + [Delivery(EntryOf(item), Some(g.future), now)];
        ReleasePutter();
        return true;
      }
      return false;
    }

    /** The tail of `get`: a new waiter joins the line. */
    method AwaitItem(withScore: bool, timeout: Option<Time>)
      modifies this`nextId, this`getFutures, this`getters, this`timeouts
      ensures View() == Wait(old(View()), withScore, timeout)
    {
      var waiter := nextId;
      nextId := nextId + 1;
      getFutures := getFutures[waiter := Pending];
      getters := getters + [Getter(withScore, waiter)];
      if timeout.Some? && timeout.value != 0.0 {
        timeouts := timeouts[waiter := now + timeout.value];
      }
    }

    /** `get` until it returns or awaits; `found` is what it returns at once. */
    method GetItem(withScore: bool, timeout: Option<Time>) returns (found: Option<Future>)
      modifies this
      ensures var (t, got) := Get(old(View()), withScore, timeout);
              View() == t && found == if got.Some? then Some(Answer(withScore, got.value)) else None
    {
      var popped := PopItem();
      match popped {
        case None =>
        case Some(item) =>
          if item.timestamp > now {
            ScheduleItem(item);
          } else {
            delivered := delivered + [Delivery(EntryOf(item), None, now)];
            ReleasePutter();
            return Some(Got(item.value, if withScore then Some(item.timestamp) else None));
          }
      }
      AwaitItem(withScore, timeout);
      return None;
    }

    /** The tail of `put`: the caller blocks if the queue is full. */
    method AwaitRoom()
      modifies this`nextId, this`putFutures, this`putters
      ensures View() == BlockIfFull(old(View()))
    {
      var full := IsFull();
      if full {
        putFutures := putFutures[nextId := Pending];
        putters := putters + [nextId];
        nextId := nextId + 1;
      }
    }

    /** The middle of `put`: who gets the item, or how it is kept. */
    method HandOverOrStore(item: Item) returns (handedOver: bool)
      modifies this
      ensures handedOver ==> old(getters) != [] && item.timestamp < old(now)
                             && SendFrom(old(View()), item) == (View(), true)
      ensures !handedOver ==>
                var s := if old(getters) != [] && item.timestamp < old(now) then SendFrom(old(View()), item)
                         else (old(View()), false);
                !s.1 && BlockIfFull(View()) == Keep(s.0, item)
    {
      if getters != [] {
        if item.timestamp < now {
          handedOver := SendItem(item);
          if !handedOver {
            Push(item);
          }
        } else {
          ScheduleItem(item);
          handedOver := false;
        }
      } else {
        Push(item);
        handedOver := false;
      }
    }

    /** `put` until it returns or awaits. */
    method PutValue(value: Value, score: Option<Time>)
      modifies this
      ensures View() == Put(old(View()), value, score)
    {
      hide Send, BlockIfFull, Keep;
      var timestamp := match score case Some(t) => t case None => now + config.addScore;
      puts := puts + multiset{Entry(value, timestamp)};
      var item := Item(nextId, value, timestamp, false);
      nextId := nextId + 1;
      assert (View(), item) == Arrive(old(View()), value, timestamp);
      var handedOver := HandOverOrStore(item);
      if !handedOver {
        AwaitRoom();
      }
    }

    /** `_on_time` */
    method RunOnTime()
      modifies this
      ensures View() == OnTime(old(View()))
    {
      while getters != []
        invariant OnTime(View()) == OnTime(old(View()))
        decreases |getters|
      {
        var popped := PopItem();
        match popped {
          case None =>
            break;
          case Some(item) =>
            if item.timestamp > now {
              ScheduleItem(item);
              break;
            }
            var sent := SendItem(item);
            if !sent {
              Push(item);
            }
        }
      }
    }

    /** The event loop fires a pending `_on_time` callback. */
    method Fire(index: nat)
      requires Enabled(View(), FireTimer(index))
      modifies this
      ensures View() == Step(old(View()), FireTimer(index))
    {
      timers := timers[..index] + timers[index + 1..];
      RunOnTime();
    }

    /** `_on_timeout`, fired by the event loop. */
    method RunOnTimeout(waiter: nat)
      requires Enabled(View(), Event.FireTimeout(waiter))
      modifies this`timeouts, this`getFutures
      ensures View() == Step(old(View()), Event.FireTimeout(waiter))
    {
      timeouts := timeouts - {waiter};
      if waiter in getFutures && getFutures[waiter] == Pending {
        getFutures := getFutures[waiter := TimedOut];
      }
    }

    /** The first loop of `cleanup`. */
    method CancelGetters()
      modifies this`getters, this`getFutures
      ensures getters == []
      ensures getFutures == CancelQueued(old(getFutures), old(getters))
    {
      while getters != []
        invariant CancelQueued(getFutures, getters) == CancelQueued(old(getFutures), old(getters))
        decreases |getters|
      {
        ghost var line, before := getters, getFutures;
        var f := getters[0].future;
        getters := getters[1..];
        if f in getFutures && getFutures[f] == Pending {
          getFutures := getFutures[f := Cancelled];
        }
        assert forall g :: g in line <==> g == line[0] || g in getters;
        assert CancelQueued(getFutures, getters) == CancelQueued(before, line);
      }
    }

    method RunCleanup()
      modifies this`getters, this`putters, this`getFutures, this`putFutures
      ensures View() == Cleanup(old(View()))
    {
      hide CancelQueued;
      CancelGetters();
      while putters != []
        invariant CancelAll(putFutures, putters) == CancelAll(old(putFutures), old(putters))
        invariant getters == [] && getFutures == CancelQueued(old(getFutures), old(getters))
        decreases |putters|
      {
        ghost var line, before := putters, putFutures;
        var p := putters[0];
        putters := putters[1..];
        if p in putFutures {
          putFutures := putFutures[p := Cancelled];
        }
        assert CancelAll(putFutures, putters) == CancelAll(before, line);
      }
    }
  }
}
