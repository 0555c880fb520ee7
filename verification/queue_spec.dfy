/** The functional specification of the timestamp queue.

    A `State` is everything the two queue classes, the futures they hand out and the
    callbacks they register can observe.  Every function below is one code segment of the
    source: it runs without suspension between two awaits. */
module QueueSpec {
  import opened Wrappers

  type Value(==, !new)
  type Time = real

  /** A heap entry.  `id` is the object identity that `is` compares. */
  datatype Item = Item(id: nat, value: Value, timestamp: Time, scheduled: bool)

  /** What a caller put, whatever item objects carry it around. */
  datatype Entry = Entry(value: Value, timestamp: Time)

  datatype Future =
    | Pending
    | Got(value: Value, score: Option<Time>)
    | TimedOut
    | Cancelled
    | Released

  datatype Getter = Getter(withScore: bool, future: nat)

  /** One value leaving the queue: straight out of `get` (`to` is None) or through the
      future of a waiting getter; `at` is the clock at that moment. */
  datatype Delivery = Delivery(entry: Entry, to: Option<nat>, at: Time)

  /** `heapq`, of which only this much is used: what is popped is a minimum.  Which one, among
      equal timestamps, depends on the entries and their order alone. */
  ghost predicate PicksMinimum(pick: seq<Item> -> nat) {
    forall q: seq<Item> :: q != [] ==>
      pick(q) < |q| && forall j :: 0 <= j < |q| ==> q[pick(q)].timestamp <= q[j].timestamp
  }

  function FirstMinimum(q: seq<Item>): (i: nat)
    ensures q != [] ==> i < |q| && forall j :: 0 <= j < |q| ==> q[i].timestamp <= q[j].timestamp
  {
    if |q| <= 1 then 0
    else
      var i := FirstMinimum(q[1..]) + 1;
      assert forall j :: 1 <= j < |q| ==> q[j] == q[1..][j - 1];
      if q[i].timestamp < q[0].timestamp then i else 0
  }

  type Heapq = pick: seq<Item> -> nat | PicksMinimum(pick) ghost witness q => FirstMinimum(q)

  /** `unique` says which class the queue is an instance of: it decides what the overridden
      methods `_pop`, `_put` and `__len__` do. */
  datatype Config = Config(heapq: Heapq, unique: bool, maxsize: int, addScore: Time)

  /** `_queue` and `_values`; `overwritten` is history: what later puts of a value displaced. */
  datatype Heap = Heap(queue: seq<Item>, values: map<Value, Item>, overwritten: multiset<Entry>)

  /** `_getters`, `_putters`, the state of every future handed out by `get` and by `put`, and
      the history of deliveries. */
  datatype Waiters = Waiters(
    getters: seq<Getter>,
    putters: seq<nat>,
    getFutures: map<nat, Future>,
    putFutures: map<nat, Future>,
    delivered: seq<Delivery>)

  /** `timers` are the deadlines of the pending `_on_time` callbacks and `timeouts` those of
      the pending `_on_timeout` ones; `puts` is history. */
  datatype State = State(
    config: Config,
    now: Time,
    nextId: nat,
    heap: Heap,
    waiters: Waiters,
    timers: seq<Time>,
    timeouts: map<nat, Time>,
    puts: multiset<Entry>)

  function Initial(config: Config, now: Time): State {
    State(config, now, 0, Heap([], map[], multiset{}), Waiters([], [], map[], map[], []),
          [], map[], multiset{})
  }

  function EntryOf(item: Item): Entry {
    Entry(item.value, item.timestamp)
  }

  /** `__len__` */
  function Len(c: Config, h: Heap): nat {
    if c.unique then |h.values| else |h.queue|
  }

  /** `empty` */
  predicate Empty(c: Config, h: Heap) {
    if c.unique then h.values == map[] else h.queue == []
  }

  predicate Full(c: Config, h: Heap) {
    0 < c.maxsize && Len(c, h) >= c.maxsize
  }

  predicate IsCurrent(c: Config, h: Heap, item: Item) {
    c.unique ==> item.value in h.values && h.values[item.value].id == item.id
  }

  function Without<T>(q: seq<T>, i: nat): seq<T>
    requires i < |q|
  {
    q[..i] + q[i + 1..]
  }

  /** `_put`: push, and for the unique queue make the item the current one of its value. */
  function PutItem(c: Config, h: Heap, item: Item): Heap {
    if !c.unique then h.(queue := h.queue + [item])
    else
      Heap(h.queue + [item],
           h.values[item.value := item],
           if item.value in h.values then h.overwritten + multiset{EntryOf(h.values[item.value])}
           else h.overwritten)
  }

  /** `_pop`: the unique queue skips the heap entries that are no longer current. */
  function Pop(c: Config, h: Heap): (Heap, Option<Item>)
    decreases |h.queue|
  {
    if h.queue == [] then (h, None)
    else
      var i := c.heapq(h.queue);
      var item := h.queue[i];
      var rest := h.(queue := Without(h.queue, i));
      if !c.unique then (rest, Some(item))
      else if IsCurrent(c, h, item) then (rest.(values := h.values - {item.value}), Some(item))
      else Pop(c, rest)
  }

  /** The item that `_schedule` pushes: the same one, or a new one carrying the flag. */
  function Scheduled(item: Item, nextId: nat): Item {
    if item.scheduled then item else Item(nextId, item.value, item.timestamp, true)
  }

  /** `_schedule`: an item not yet scheduled is replaced by a scheduled one and gets a timer. */
  function Schedule(s: State, item: Item): State {
    s.(heap := PutItem(s.config, s.heap, Scheduled(item, s.nextId)),
       nextId := s.nextId + 1,
       timers := if item.scheduled then s.timers else s.timers + [item.timestamp])
  }

  function ReleaseAll(futures: map<nat, Future>, putters: seq<nat>): map<nat, Future> {
    map f | f in futures :: if f in putters then Released else futures[f]
  }

  /** `_release_putter` */
  function ReleasePutters(w: Waiters, full: bool): Waiters {
    if full then w else w.(putters := [], putFutures := ReleaseAll(w.putFutures, w.putters))
  }

  predicate IsPending(futures: map<nat, Future>, f: nat) {
    f in futures && futures[f] == Pending
  }

  /** The value, with its timestamp if the caller asked for the score. */
  function Answer(withScore: bool, item: Item): Future {
    Got(item.value, if withScore then Some(item.timestamp) else None)
  }

  /** Setting the result of a getter's future. */
  function Resolve(w: Waiters, g: Getter, item: Item, now: Time): Waiters {
    w.(getFutures := w.getFutures[g.future := Answer(g.withScore, item)],
       delivered := w.delivered + [Delivery(EntryOf(item), Some(g.future), now)])
  }

  /** `_send`: drop the getters that are done, give the item to the first one that is not. */
  function Send(w: Waiters, item: Item, full: bool, now: Time): (r: (Waiters, bool))
    ensures r.1 ==> |r.0.getters| < |w.getters|
    ensures !r.1 ==> r.0 == w.(getters := [])
    decreases |w.getters|
  {
    if w.getters == [] then (w, false)
    else
      var g := w.getters[0];
      var rest := w.(getters := w.getters[1..]);
      if IsPending(w.getFutures, g.future) then
        (ReleasePutters(Resolve(rest, g, item, now), full), true)
      else Send(rest, item, full, now)
  }

  function SendFrom(s: State, item: Item): (State, bool) {
    var (w, sent) := Send(s.waiters, item, Full(s.config, s.heap), s.now);
    (s.(waiters := w), sent)
  }

  function BlockIfFull(s: State): State {
    if Full(s.config, s.heap) then
      s.(waiters := s.waiters.(putters := s.waiters.putters + [s.nextId],
                               putFutures := s.waiters.putFutures[s.nextId := Pending]),
         nextId := s.nextId + 1)
    else s
  }

  function ScoreOf(s: State, score: Option<Time>): Time {
    match score case Some(t) => t case None => s.now + s.config.addScore
  }

  /** A put is recorded, and its item made. */
  function Arrive(s: State, value: Value, timestamp: Time): (State, Item) {
    (s.(puts := s.puts + multiset{Entry(value, timestamp)}, nextId := s.nextId + 1),
     Item(s.nextId, value, timestamp, false))
  }

  /** The branches of `put` that keep the item. */
  function Keep(s: State, item: Item): State {
    BlockIfFull(if s.waiters.getters == [] then s.(heap := PutItem(s.config, s.heap, item))
                else Schedule(s, item))
  }

  /** `put`, up to its only await. */
  function Put(s: State, value: Value, score: Option<Time>): State {
    var (s1, item) := Arrive(s, value, ScoreOf(s, score));
    if s1.waiters.getters != [] && item.timestamp < s1.now then
      var (s2, sent) := SendFrom(s1, item);
      if sent then s2 else Keep(s2, item)
    else Keep(s1, item)
  }

  /** The second half of `get`: join the queue of getters, with a timeout or without. */
  function Wait(s: State, withScore: bool, timeout: Option<Time>): State {
    s.(waiters := s.waiters.(getters := s.waiters.getters + [Getter(withScore, s.nextId)],
                             getFutures := s.waiters.getFutures[s.nextId := Pending]),
       timeouts := if timeout.Some? && timeout.value != 0.0
                   then s.timeouts[s.nextId := s.now + timeout.value]
                   else s.timeouts,
       nextId := s.nextId + 1)
  }

  /** The branch of `get` that returns at once. */
  function Serve(s: State, item: Item): State {
    var w := s.waiters.(delivered := s.waiters.delivered + [Delivery(EntryOf(item), None, s.now)]);
    s.(waiters := ReleasePutters(w, Full(s.config, s.heap)))
  }

  function PopFrom(s: State): (State, Option<Item>) {
    var (h, popped) := Pop(s.config, s.heap);
    (s.(heap := h), popped)
  }

  /** `get`, up to its only await; the item is what it returns at once, if it does. */
  function Get(s: State, withScore: bool, timeout: Option<Time>): (State, Option<Item>) {
    var (s1, popped) := PopFrom(s);
    match popped
    case None => (Wait(s1, withScore, timeout), None)
    case Some(item) =>
      if item.timestamp > s1.now then (Wait(Schedule(s1, item), withScore, timeout), None)
      else (Serve(s1, item), Some(item))
  }

  /** `_on_time` */
  function OnTime(s: State): State
    decreases |s.waiters.getters|
  {
    if s.waiters.getters == [] then s
    else
      var (s1, popped) := PopFrom(s);
      match popped
      case None => s1
      case Some(item) =>
        if item.timestamp > s1.now then Schedule(s1, item)
        else
          var (s2, sent) := SendFrom(s1, item);
          if sent then OnTime(s2) else s2.(heap := PutItem(s2.config, s2.heap, item))
  }

  function Settle(s: State, f: nat, how: Future): State {
    if IsPending(s.waiters.getFutures, f)
    then s.(waiters := s.waiters.(getFutures := s.waiters.getFutures[f := how]))
    else s
  }

  function CancelQueued(futures: map<nat, Future>, getters: seq<Getter>): map<nat, Future> {
    map f | f in futures ::
      if futures[f] == Pending && (exists g :: g in getters && g.future == f) then Cancelled else futures[f]
  }

  function CancelAll(futures: map<nat, Future>, putters: seq<nat>): map<nat, Future> {
    map p | p in futures :: if p in putters then Cancelled else futures[p]
  }

  /** `cleanup` */
  function Cleanup(s: State): State {
    var w := s.waiters;
    s.(waiters := w.(getters := [], getFutures := CancelQueued(w.getFutures, w.getters),
                     putters := [], putFutures := CancelAll(w.putFutures, w.putters)))
  }

  /** Everything that can happen to a queue. */
  datatype Event =
    | CallPut(value: Value, score: Option<Time>)
    | CallGet(withScore: bool, timeout: Option<Time>)
    | FireTimer(index: nat)         // the event loop runs a pending `_on_time`
    | FireTimeout(future: nat)      // the event loop runs a pending `_on_timeout`
    | CancelGetter(future: nat)     // the task waiting in `get` is cancelled
    | Tick(time: Time)              // the clock advances

  /** Callbacks fire once, and never before their deadline. */
  predicate Enabled(s: State, e: Event) {
    match e
    case CallPut(_, _) => true
    case CallGet(_, _) => true
    case FireTimer(i) => i < |s.timers| && s.timers[i] <= s.now
    case FireTimeout(f) => f in s.timeouts && s.timeouts[f] <= s.now
    case CancelGetter(f) => f in s.waiters.getFutures
    case Tick(t) => s.now <= t
  }

  function Step(s: State, e: Event): State
    requires Enabled(s, e)
  {
    match e
    case CallPut(value, score) => Put(s, value, score)
    case CallGet(withScore, timeout) => Get(s, withScore, timeout).0
    case FireTimer(i) => OnTime(s.(timers := Without(s.timers, i)))
    case FireTimeout(f) => Settle(s.(timeouts := s.timeouts - {f}), f, TimedOut)
    case CancelGetter(f) => Settle(s, f, Cancelled)
    case Tick(t) => s.(now := t)
  }

  predicate Feasible(s: State, es: seq<Event>)
    decreases |es|
  {
    es == [] || (Enabled(s, es[0]) && Feasible(Step(s, es[0]), es[1..]))
  }

  function Run(s: State, es: seq<Event>): State
    requires Feasible(s, es)
    decreases |es|
  {
    if es == [] then s else Run(Step(s, es[0]), es[1..])
  }
}
