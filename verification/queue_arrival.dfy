/** First come, first served: the line of waiting `get` calls is in the order of the calls. */
module QueueArrival {
  import opened Wrappers
  import opened QueueSpec
  import opened QueueWakeup
  import opened QueueAccounting
  import opened QueueFutures
  import opened QueueRuns

  ghost predicate InOrder(getters: seq<Getter>) {
    forall i, j :: 0 <= i < j < |getters| ==> getters[i].future < getters[j].future
  }

  /** The line is in the order in which its futures were handed out. */
  ghost predicate LineInv(s: State) {
    InOrder(s.waiters.getters) && forall g :: g in s.waiters.getters ==> g.future < s.nextId
  }

  lemma {:induction false} SendDropsFront(w: Waiters, item: Item, full: bool, now: Time)
    ensures var t := Send(w, item, full, now).0; exists k :: 0 <= k <= |w.getters| && t.getters == w.getters[k..]
    decreases |w.getters|
  {
    var t := Send(w, item, full, now).0;
    if w.getters == [] {
      assert t.getters == w.getters[0..];
    } else if IsPending(w.getFutures, w.getters[0].future) {
      assert t.getters == w.getters[1..];
    } else {
      var rest := w.(getters := w.getters[1..]);
      SendDropsFront(rest, item, full, now);
      var k :| 0 <= k <= |rest.getters| && t.getters == rest.getters[k..];
      assert t.getters == w.getters[k + 1..];
    }
  }

  lemma SendKeepsLine(s: State, item: Item)
    requires LineInv(s)
    ensures LineInv(SendFrom(s, item).0)
  {
    SendDropsFront(s.waiters, item, Full(s.config, s.heap), s.now);
  }

  lemma {:induction false} OnTimeKeepsLine(s: State)
    requires LineInv(s)
    ensures LineInv(OnTime(s))
    decreases |s.waiters.getters|
  {
    if s.waiters.getters != [] {
      var (s1, popped) := PopFrom(s);
      if popped.Some? && popped.value.timestamp <= s1.now {
        SendKeepsLine(s1, popped.value);
        var (s2, sent) := SendFrom(s1, popped.value);
        if sent { OnTimeKeepsLine(s2); }
      }
    }
  }

  lemma PutKeepsLine(s: State, value: Value, score: Option<Time>)
    requires LineInv(s)
    ensures LineInv(Put(s, value, score))
  {
    var (s1, item) := Arrive(s, value, ScoreOf(s, score));
    SendKeepsLine(s1, item);
  }

  lemma GetKeepsLine(s: State, withScore: bool, timeout: Option<Time>)
    requires LineInv(s)
    ensures LineInv(Get(s, withScore, timeout).0)
  {
    hide Pop, PutItem;
    var (s1, popped) := PopFrom(s);
  }

  lemma StepKeepsLine(s: State, e: Event)
    requires LineInv(s) && Enabled(s, e)
    ensures LineInv(Step(s, e))
  {
    hide Put, Get, OnTime;
    match e
    case CallPut(value, score) => PutKeepsLine(s, value, score);
    case FireTimer(i) => OnTimeKeepsLine(s.(timers := Without(s.timers, i)));
    case CallGet(withScore, timeout) => GetKeepsLine(s, withScore, timeout);
    case FireTimeout(f) =>
    case CancelGetter(f) =>
    case Tick(t) =>
  }

  lemma {:induction false} RunKeepsLine(s: State, es: seq<Event>)
    requires LineInv(s) && Feasible(s, es)
    ensures LineInv(Run(s, es))
    decreases |es|
  {
    hide LineInv, Step, Enabled;
    if es != [] {
      StepKeepsLine(s, es[0]);
      RunKeepsLine(Step(s, es[0]), es[1..]);
    }
  }

  lemma ReachableLine(s: State)
    requires Reachable(s)
    ensures LineInv(s)
  {
    hide Run, Feasible;
    var config, now, es :| Feasible(Initial(config, now), es) && s == Run(Initial(config, now), es);
    RunKeepsLine(Initial(config, now), es);
  }

  lemma IdsHold(s: State)
    requires QueueInv(s)
    ensures IdsInv(s.waiters, s.nextId)
  {
  }

  /** A `get` that waits joins the line behind everybody in it, with a future larger than all
      handed out before: the futures are in the order of the calls. */
  lemma NewcomerIsLast(s: State, withScore: bool, timeout: Option<Time>)
    requires Reachable(s) && Get(s, withScore, timeout).1 == None
    ensures var t := Get(s, withScore, timeout).0;
            && t.waiters.getters != []
            && var mine := t.waiters.getters[|t.waiters.getters| - 1];
            && t.waiters.getters == s.waiters.getters + [mine] && mine.withScore == withScore
            && IsPending(t.waiters.getFutures, mine.future)
            && (forall f :: f in s.waiters.getFutures ==> f < mine.future)
  {
    hide QueueInv, Reachable, Pop, PutItem, ReleasePutters;
    ReachableInv(s);
    IdsHold(s);
  }

  // ---------- Who waits ----------

  ghost predicate Increasing(fs: seq<nat>) {
    forall i, j :: 0 <= i < j < |fs| ==> fs[i] < fs[j]
  }

  lemma {:induction false} PendingInOrder(getters: seq<Getter>, futures: map<nat, Future>)
    requires InOrder(getters)
    ensures Increasing(PendingOf(getters, futures))
    ensures forall f :: f in PendingOf(getters, futures) <==> IsPending(futures, f) && Queued(getters, f)
    decreases |getters|
  {
    if getters != [] {
      PendingInOrder(getters[1..], futures);
      var rest := PendingOf(getters[1..], futures);
      forall i | 0 <= i < |rest| ensures getters[0].future < rest[i] {
        assert rest[i] in rest;
        var g :| g in getters[1..] && g.future == rest[i];
      }
      forall f ensures Queued(getters, f) <==> getters[0].future == f || Queued(getters[1..], f) {
        assert forall g :: g in getters <==> g == getters[0] || g in getters[1..];
      }
    }
  }

  lemma WaitingInOrder(s: State)
    requires LineInv(s) && FuturesInv(s)
    ensures Increasing(Waiting(s.waiters))
    ensures forall f :: f in Waiting(s.waiters) <==> IsPending(s.waiters.getFutures, f)
  {
    PendingInOrder(s.waiters.getters, s.waiters.getFutures);
  }

  /** What a step that delivers through the line does to those waiting: the first are served. */
  lemma PutServesFront(s: State, value: Value, score: Option<Time>)
    requires QueueInv(s)
    ensures var t := Step(s, CallPut(value, score));
            exists k :: 0 <= k <= |Waiting(s.waiters)| && Waiting(t.waiters) == Waiting(s.waiters)[k..]
  {
    hide QueueInv, Put;
    FuturesHold(s);
    PutServesFirst(s, value, score);
  }

  lemma FuturesHold(s: State)
    requires QueueInv(s)
    ensures FuturesInv(s)
  {
  }

  lemma PutServesFirst(s: State, value: Value, score: Option<Time>)
    requires FuturesInv(s)
    ensures var t := Put(s, value, score);
            exists k :: 0 <= k <= |Waiting(s.waiters)| && Waiting(t.waiters) == Waiting(s.waiters)[k..]
  {
    var (s1, item) := Arrive(s, value, ScoreOf(s, score));
    SendServesFirst(s1.waiters, item, Full(s1.config, s1.heap), s1.now);
    var t, all := Put(s, value, score), Waiting(s.waiters);
    assert all[0..] == all && all[|all|..] == [];
    if s1.waiters.getters != [] && item.timestamp < s1.now && all != [] {
      assert Waiting(t.waiters) == all[1..];
    } else {
      assert Waiting(t.waiters) == all[0..];
    }
  }

  lemma TimerServesFront(s: State, i: nat)
    requires QueueInv(s) && Enabled(s, FireTimer(i))
    ensures var t := Step(s, FireTimer(i));
            exists k :: 0 <= k <= |Waiting(s.waiters)| && Waiting(t.waiters) == Waiting(s.waiters)[k..]
  {
    var s0 := s.(timers := Without(s.timers, i));
    ArmedWithout(s, i);
    var floor := LowestLive(s0);
    OnTimeServes(s0, floor);
    assert ServedInOrder(s0, OnTime(s0), floor);
  }

  ghost function LowestLive(s: State): (floor: Time)
    ensures LiveFrom(s, floor)
  {
    LowestIn(s.heap.queue)
  }

  ghost function LowestIn(q: seq<Item>): (floor: Time)
    ensures forall item :: item in q ==> floor <= item.timestamp
  {
    if q == [] then 0.0
    else
      var floor := LowestIn(q[1..]);
      assert forall item :: item in q <==> item == q[0] || item in q[1..];
      if q[0].timestamp < floor then q[0].timestamp else floor
  }

  lemma StepKeepsPending(s: State, e: Event, f: nat)
    requires Enabled(s, e) && IsPending(s.waiters.getFutures, f) && !e.CallPut? && !e.FireTimer?
    requires QueueInv(s)
    ensures f in Step(s, e).waiters.getFutures && !Step(s, e).waiters.getFutures[f].Got?
  {
    hide QueueInv, Put, OnTime, Pop, PutItem;
    IdsHold(s);
  }

  /** Over one step, nobody gets an item while somebody who called earlier keeps waiting. */
  lemma StepServesInArrivalOrder(s: State, e: Event, f: nat, g: nat)
    requires QueueInv(s) && LineInv(s) && Enabled(s, e) && f < g
    requires IsPending(s.waiters.getFutures, f) && IsPending(s.waiters.getFutures, g)
    ensures g in Step(s, e).waiters.getFutures
    ensures Step(s, e).waiters.getFutures[g].Got? ==> !IsPending(Step(s, e).waiters.getFutures, f)
  {
    hide Step, LineInv, Waiting, OnlySettles, FuturesInv, Enabled;
    var t := Step(s, e);
    StepKnows(s, e, g);
    if e.CallPut? || e.FireTimer? {
      if e.CallPut? {
        PutServesFront(s, e.value, e.score);
        assert e == CallPut(e.value, e.score);
      } else {
        TimerServesFront(s, e.index);
        assert e == FireTimer(e.index);
      }
      StepKeepsInv(s, e);
      StepKeepsLine(s, e);
      WaitingInOrder(s);
      WaitingInOrder(t);
      if t.waiters.getFutures[g].Got? { FrontServed(Waiting(s.waiters), Waiting(t.waiters), f, g); }
    } else {
      StepKeepsPending(s, e, g);
    }
  }

  lemma StepKnows(s: State, e: Event, g: nat)
    requires QueueInv(s) && Enabled(s, e) && g in s.waiters.getFutures
    ensures g in Step(s, e).waiters.getFutures
  {
    StepOnlySettles(s, e);
  }

  lemma TailHolds(all: seq<nat>, k: nat)
    requires k <= |all|
    ensures forall j :: k <= j < |all| ==> all[j] in all[k..]
  {
    forall j | k <= j < |all| ensures all[j] in all[k..] {
      assert all[k..][j - k] == all[j];
    }
  }

  lemma FrontServed(all: seq<nat>, left: seq<nat>, f: nat, g: nat)
    requires Increasing(all) && f in all && g in all && f < g && g !in left
    requires exists k :: 0 <= k <= |all| && left == all[k..]
    ensures f !in left
  {
    var k :| 0 <= k <= |all| && left == all[k..];
    var j :| 0 <= j < |all| && all[j] == g;
    TailHolds(all, k);
    assert forall i :: 0 <= i < |left| ==> left[i] == all[k + i];
  }

  /** Over any run, of two calls that wait the earlier one is not passed over: if the later one
      ends up with an item, the earlier one waits no longer. */
  lemma {:induction false} ServedInArrivalOrder(s: State, es: seq<Event>, f: nat, g: nat)
    requires QueueInv(s) && LineInv(s) && Feasible(s, es) && f < g
    requires IsPending(s.waiters.getFutures, f) && IsPending(s.waiters.getFutures, g)
    ensures g in Run(s, es).waiters.getFutures
    ensures Run(s, es).waiters.getFutures[g].Got? ==> !IsPending(Run(s, es).waiters.getFutures, f)
    decreases |es|
  {
    hide QueueInv, LineInv, Step, Enabled;
    if es != [] {
      var t := Step(s, es[0]);
      StepServesInArrivalOrder(s, es[0], f, g);
      StepKeepsInv(s, es[0]);
      StepKeepsLine(s, es[0]);
      SettledForGood(t, es[1..]);
      StepSettles(s, es[0]);
      if IsPending(t.waiters.getFutures, f) && IsPending(t.waiters.getFutures, g) {
        ServedInArrivalOrder(t, es[1..], f, g);
      }
    }
  }

  lemma StepSettles(s: State, e: Event)
    requires QueueInv(s) && Enabled(s, e)
    ensures OnlySettles(s.waiters, Step(s, e).waiters)
  {
    StepOnlySettles(s, e);
  }
}
