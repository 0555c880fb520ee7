/** Whole runs of the unique queue against the machine it refines: a finite map from values
    to timestamps, and what leaves it. */
module QueueMap {
  import opened Wrappers
  import opened QueueSpec
  import opened QueueWakeup
  import opened QueueFutures
  import opened QueueUnique
  import opened QueueRuns

  /** A step of the map machine: `put` assigns, or hands a past-dated value on without touching
      the map; `get` takes a least due entry or finds none due; a timer takes least due
      entries, one after the other; nothing else moves anything. */
  ghost predicate MapStep(a: Times, now: Time, addScore: Time, e: Event, out: seq<Delivery>, b: Times) {
    match e
    case CallPut(v, score) =>
      var t := match score case Some(t) => t case None => now + addScore;
      || (out == [] && b == a[v := t])
      || (|out| == 1 && out[0].entry == Entry(v, t) && out[0].to.Some? && out[0].at == now && t < now && b == a)
    case CallGet(_, _) =>
      if out == [] then b == a && forall v :: v in a ==> now < a[v]
      else |out| == 1 && out[0].to.None? && TakesLeast(a, out[0], now) && b == a - {out[0].entry.value}
    case FireTimer(_) => TakesAll(a, out, now, b)
    case _ => out == [] && b == a
  }

  function ClockAfter(now: Time, e: Event): Time {
    if e.Tick? then e.time else now
  }

  /** A run of the map machine, with what leaves it at each step. */
  ghost predicate MapRun(a: Times, now: Time, addScore: Time, es: seq<Event>, outs: seq<seq<Delivery>>, b: Times)
    decreases |es|
  {
    |outs| == |es| &&
    if es == [] then a == b
    else
      exists mid :: MapStep(a, now, addScore, es[0], outs[0], mid)
                    && MapRun(mid, ClockAfter(now, es[0]), addScore, es[1..], outs[1..], b)
  }

  function Concat(outs: seq<seq<Delivery>>): seq<Delivery> {
    if outs == [] then [] else outs[0] + Concat(outs[1..])
  }

  // ---------- One step ----------

  ghost function OutOf(s: State, e: Event): seq<Delivery>
    requires Enabled(s, e) && s.waiters.delivered <= Step(s, e).waiters.delivered
  {
    NewDeliveries(s.waiters, Step(s, e).waiters)
  }

  lemma PutDelivers(s: State, value: Value, score: Option<Time>)
    requires DistinctFutures(s.waiters.getters)
    ensures var all, t := Waiting(s.waiters), ScoreOf(s, score);
            Put(s, value, score).waiters.delivered ==
            if all != [] && t < s.now then s.waiters.delivered + [Delivery(Entry(value, t), Some(all[0]), s.now)]
            else s.waiters.delivered
  {
    hide PutItem, Send, ScoreOf, DistinctFutures;
    var (s1, item) := Arrive(s, value, ScoreOf(s, score));
    SendServesFirst(s1.waiters, item, Full(s1.config, s1.heap), s1.now);
  }

  lemma PutMoves(s: State, value: Value, score: Option<Time>)
    requires s.config.unique && DistinctFutures(s.waiters.getters)
    ensures s.waiters.delivered <= Put(s, value, score).waiters.delivered
    ensures var t := Put(s, value, score);
            MapStep(AsMap(s.heap), s.now, s.config.addScore, CallPut(value, score),
                    NewDeliveries(s.waiters, t.waiters), AsMap(t.heap))
  {
    hide Put, AsMap, Waiting, DistinctFutures;
    PutOnMap(s, value, score);
    PutDelivers(s, value, score);
  }

  lemma GetMoves(s: State, withScore: bool, timeout: Option<Time>)
    requires HeapInv(s) && s.config.unique
    ensures s.waiters.delivered <= Get(s, withScore, timeout).0.waiters.delivered
    ensures var t := Get(s, withScore, timeout).0;
            MapStep(AsMap(s.heap), s.now, s.config.addScore, CallGet(withScore, timeout),
                    NewDeliveries(s.waiters, t.waiters), AsMap(t.heap))
  {
    hide AsMap, Pop, PutItem, HeapInv;
    GetOnMap(s, withScore, timeout);
  }

  /** Each event moves the map as the map machine allows, and what leaves is what it says. */
  lemma StepOnMap(s: State, e: Event)
    requires QueueInv(s) && s.config.unique && Enabled(s, e)
    ensures s.waiters.delivered <= Step(s, e).waiters.delivered
    ensures MapStep(AsMap(s.heap), s.now, s.config.addScore, e, OutOf(s, e), AsMap(Step(s, e).heap))
  {
    if e.CallPut? {
      PutMoves(s, e.value, e.score);
    } else if e.CallGet? {
      GetMoves(s, e.withScore, e.timeout);
    } else if e.FireTimer? {
      var s0 := s.(timers := Without(s.timers, e.index));
      ArmedWithout(s, e.index);
      OnTimeOnMap(s0);
    } else {
      QuietOnMap(s, e);
    }
  }

  // ---------- Runs ----------

  ghost function OutsOf(s: State, es: seq<Event>): (outs: seq<seq<Delivery>>)
    requires QueueInv(s) && s.config.unique && Feasible(s, es)
    ensures |outs| == |es|
    decreases |es|
  {
    if es == [] then []
    else
      StepOnMap(s, es[0]);
      StepKeepsInv(s, es[0]);
      StepOverwrites(s, es[0]);
      [OutOf(s, es[0])] + OutsOf(Step(s, es[0]), es[1..])
  }

  lemma StepClock(s: State, e: Event)
    requires Enabled(s, e)
    ensures Step(s, e).now == ClockAfter(s.now, e)
  {
    if e.FireTimer? { OnTimeArmsLater(s.(timers := Without(s.timers, e.index))); }
  }

  lemma MapRunCons(a: Times, mid: Times, now: Time, addScore: Time, es: seq<Event>,
                   outs: seq<seq<Delivery>>, b: Times)
    requires es != [] && |outs| == |es| && MapStep(a, now, addScore, es[0], outs[0], mid)
    requires MapRun(mid, ClockAfter(now, es[0]), addScore, es[1..], outs[1..], b)
    ensures MapRun(a, now, addScore, es, outs, b)
  {
    hide MapStep;
  }

  lemma OutsCons(s: State, es: seq<Event>) returns (t: State, out: seq<Delivery>)
    requires QueueInv(s) && s.config.unique && Feasible(s, es) && es != []
    ensures QueueInv(t) && t.config == s.config && t.now == ClockAfter(s.now, es[0])
    ensures Feasible(t, es[1..]) && Run(t, es[1..]) == Run(s, es)
    ensures t.waiters.delivered == s.waiters.delivered + out
    ensures OutsOf(s, es) == [out] + OutsOf(t, es[1..])
    ensures MapStep(AsMap(s.heap), s.now, s.config.addScore, es[0], out, AsMap(t.heap))
  {
    hide MapStep, AsMap, Step, QueueInv, Enabled;
    StepOnMap(s, es[0]);
    StepKeepsInv(s, es[0]);
    StepOverwrites(s, es[0]);
    StepClock(s, es[0]);
    t, out := Step(s, es[0]), OutOf(s, es[0]);
  }

  lemma RunNothing(s: State)
    requires QueueInv(s) && s.config.unique
    ensures Feasible(s, []) && Run(s, []) == s && OutsOf(s, []) == [] && Concat([]) == []
    ensures MapRun(AsMap(s.heap), s.now, s.config.addScore, [], [], AsMap(s.heap))
  {
  }

  /** The unique queue refines the map machine: every run of calls, callbacks, cancellations
      and ticks is a run of the map, and what leaves the map is what is delivered. */
  lemma {:induction false} RunRefinesMap(s: State, es: seq<Event>)
    requires QueueInv(s) && s.config.unique && Feasible(s, es)
    ensures MapRun(AsMap(s.heap), s.now, s.config.addScore, es, OutsOf(s, es), AsMap(Run(s, es).heap))
    ensures Run(s, es).waiters.delivered == s.waiters.delivered + Concat(OutsOf(s, es))
    decreases |es|
  {
    hide MapStep, Step, QueueInv, AsMap, Enabled, MapRun, Feasible, Run, OutsOf, OutOf;
    var outs := OutsOf(s, es);
    if es == [] {
      RunNothing(s);
      assert s.waiters.delivered + [] == s.waiters.delivered;
    } else {
      var t, out := OutsCons(s, es);
      RunRefinesMap(t, es[1..]);
      assert outs[0] == out && outs[1..] == OutsOf(t, es[1..]);
      MapRunCons(AsMap(s.heap), AsMap(t.heap), s.now, s.config.addScore, es, outs, AsMap(Run(s, es).heap));
      assert s.waiters.delivered + (out + Concat(outs[1..])) == (s.waiters.delivered + out) + Concat(outs[1..]);
    }
  }

  /** From a new queue on: every reachable state of the unique queue is one the map machine
      reaches from the empty map, with the same deliveries. */
  lemma UniqueQueueIsMap(config: Config, now: Time, es: seq<Event>)
    requires config.unique && Feasible(Initial(config, now), es)
    ensures QueueInv(Initial(config, now))
    ensures var s := Initial(config, now);
            && MapRun(map[], now, config.addScore, es, OutsOf(s, es), AsMap(Run(s, es).heap))
            && Run(s, es).waiters.delivered == Concat(OutsOf(s, es))
  {
    var s := Initial(config, now);
    InitialInv(config, now);
    RunRefinesMap(s, es);
    assert AsMap(s.heap) == map[];
    assert [] + Concat(OutsOf(s, es)) == Concat(OutsOf(s, es));
  }

  // ---------- Handing over bypasses the map ----------

  /** put(v, 5), a get that waits, put(v, -1), and the clock moves on to 5. */
  function Bypass(v: Value): seq<Event> {
    [CallPut(v, Some(5.0)), CallGet(false, None), CallPut(v, Some(-1.0)), Tick(5.0)]
  }

  function FirstWait(config: Config, v: Value): State {
    Get(Put(Initial(config, 0.0), v, Some(5.0)), false, None).0
  }

  lemma InvFacts(s: State)
    requires QueueInv(s)
    ensures HeapInv(s) && DistinctFutures(s.waiters.getters)
  {
  }

  lemma FirstPut(config: Config, v: Value)
    requires config.unique
    ensures var s := Put(Initial(config, 0.0), v, Some(5.0));
            && QueueInv(s) && s.config == config && s.now == 0.0 && AsMap(s.heap) == map[v := 5.0]
            && s.waiters.delivered == [] && s.waiters.getters == []
  {
    var s0 := Initial(config, 0.0);
    InitialInv(config, 0.0);
    PutOnMap(s0, v, Some(5.0));
    StepKeepsInv(s0, CallPut(v, Some(5.0)));
  }

  /** The `get` finds nothing due and waits. */
  lemma FirstGetWaits(config: Config, v: Value)
    requires config.unique
    ensures var s := FirstWait(config, v);
            && QueueInv(s) && s.config == config && s.now == 0.0
            && AsMap(s.heap) == map[v := 5.0] && s.waiters.delivered == [] && Waiting(s.waiters) != []
  {
    hide QueueInv, HeapInv, Put, AsMap, Pop, PutItem;
    FirstPut(config, v);
    var s1 := Put(Initial(config, 0.0), v, Some(5.0));
    InvFacts(s1);
    GetOnMap(s1, false, None);
    StepKeepsInv(s1, CallGet(false, None));
    assert v in AsMap(s1.heap);
    var s2 := FirstWait(config, v);
    assert s2.waiters.getters == [Getter(false, s2.nextId - 1)];
    assert [Getter(false, s2.nextId - 1)][1..] == [];
  }

  lemma SecondPut(s: State, v: Value)
    requires QueueInv(s) && s.config.unique && s.now == 0.0 && AsMap(s.heap) == map[v := 5.0]
    requires s.waiters.delivered == [] && Waiting(s.waiters) != []
    ensures var t := Put(s, v, Some(-1.0));
            && QueueInv(t) && t.config == s.config && t.now == 0.0 && AsMap(t.heap) == map[v := 5.0]
            && |t.waiters.delivered| == 1 && t.waiters.delivered[0].entry == Entry(v, -1.0)
  {
    hide QueueInv, HeapInv, AsMap, PutItem, Waiting, Send;
    InvFacts(s);
    PutOnMap(s, v, Some(-1.0));
    StepKeepsInv(s, CallPut(v, Some(-1.0)));
    var (s1, item) := Arrive(s, v, -1.0);
    SendServesFirst(s1.waiters, item, Full(s1.config, s1.heap), s1.now);
  }

  lemma SecondGet(s: State, v: Value)
    requires QueueInv(s) && s.config.unique && s.now == 5.0 && AsMap(s.heap) == map[v := 5.0]
    ensures Get(s, false, None).1.Some? && EntryOf(Get(s, false, None).1.value) == Entry(v, 5.0)
  {
    hide QueueInv, HeapInv, AsMap, Get;
    InvFacts(s);
    GetOnMap(s, false, None);
    assert v in AsMap(s.heap);
  }

  /** The same value comes out twice: once by way of the waiting getter, which the map does not
      see, and again as the older entry that the map still has. */
  lemma BypassDeliversTwice(config: Config, v: Value)
    requires config.unique
    ensures Feasible(Initial(config, 0.0), Bypass(v))
    ensures var s := Run(Initial(config, 0.0), Bypass(v));
            && AsMap(s.heap) == map[v := 5.0]
            && |s.waiters.delivered| == 1 && s.waiters.delivered[0].entry == Entry(v, -1.0)
            && Get(s, false, None).1.Some? && EntryOf(Get(s, false, None).1.value) == Entry(v, 5.0)
  {
    hide QueueInv, AsMap, Get, Put, Waiting, FirstWait, Bypass, Run, Feasible;
    FirstGetWaits(config, v);
    SecondPut(FirstWait(config, v), v);
    var s3 := Put(FirstWait(config, v), v, Some(-1.0));
    StepKeepsInv(s3, Tick(5.0));
    BypassRuns(config, v);
    SecondGet(s3.(now := 5.0), v);
  }

  lemma BypassRuns(config: Config, v: Value)
    requires FirstWait(config, v).now == 0.0 && Put(FirstWait(config, v), v, Some(-1.0)).now == 0.0
    ensures Feasible(Initial(config, 0.0), Bypass(v))
    ensures Run(Initial(config, 0.0), Bypass(v)) == Put(FirstWait(config, v), v, Some(-1.0)).(now := 5.0)
  {
    hide Put, Get;
    var es := Bypass(v);
    assert es[1..] == [es[1], es[2], es[3]] && es[1..][1..] == [es[2], es[3]];
    assert es[1..][1..][1..] == [es[3]] && es[1..][1..][1..][1..] == [];
    var s1 := Put(Initial(config, 0.0), v, Some(5.0));
    var s2 := FirstWait(config, v);
    var s3 := Put(s2, v, Some(-1.0));
    assert Feasible(s3, [es[3]]) && Run(s3, [es[3]]) == s3.(now := 5.0);
    assert Feasible(s2, [es[2], es[3]]) && Run(s2, [es[2], es[3]]) == Run(s3, [es[3]]);
    assert Feasible(s1, es[1..]) && Run(s1, es[1..]) == Run(s2, [es[2], es[3]]);
  }
}
