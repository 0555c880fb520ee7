/** The future storage with strong references: one future for each key, settled by the first
    value set; every history of reads and writes against it. */
module FutureSpec {
  type Key(==, !new)
  type Value(==, !new)

  datatype Future = Pending | Done(value: Value)

  /** `known` is the table of the source; futures are named by the order of their creation. */
  datatype State = State(known: map<Key, nat>, futures: seq<Future>, existsSet: bool)

  datatype Op = Write(key: Key, value: Value) | Read(key: Key)

  // ---------- Operations ----------

  ghost predicate Inv(s: State) {
    && (forall k :: k in s.known ==> s.known[k] < |s.futures|)
    && (forall k, l :: k in s.known && l in s.known && s.known[k] == s.known[l] ==> k == l)
    && (forall i :: 0 <= i < |s.futures| && s.futures[i].Pending? ==> exists k :: k in s.known && s.known[k] == i)
  }

  /** `set_result`, which raises on a future that is done already. */
  function Settle(s: State, id: nat, value: Value): State
    requires id < |s.futures| && s.futures[id].Pending?
  {
    s.(futures := s.futures[id := Done(value)])
  }

  /** `loop.create_future()`, entered in the table. */
  function Create(s: State, key: Key): (r: State)
    ensures key in r.known && r.known[key] == |s.futures| < |r.futures| && r.futures[r.known[key]].Pending?
  {
    s.(known := s.known[key := |s.futures|], futures := s.futures + [Pending])
  }

  function Set(s: State, key: Key, value: Value): State
    requires Inv(s)
  {
    if key in s.known && s.futures[s.known[key]].Pending? then Settle(s, s.known[key], value)
    else if key in s.known && !s.existsSet then s
    else Settle(Create(s, key), |s.futures|, value)
  }

  /** The state after a read, which hands out `known[key]`. */
  function Get(s: State, key: Key): (r: State)
    requires Inv(s)
    ensures key in r.known && r.known[key] < |r.futures|
  {
    if key in s.known then s else Create(s, key)
  }

  function Step(s: State, op: Op): State
    requires Inv(s)
  {
    match op
    case Write(key, value) => Set(s, key, value)
    case Read(key) => Get(s, key)
  }

  lemma CreateKeepsInv(s: State, key: Key)
    requires Inv(s) && (key in s.known ==> s.futures[s.known[key]].Done?)
    ensures Inv(Create(s, key))
  {
    var r := Create(s, key);
    forall i | 0 <= i < |r.futures| && r.futures[i].Pending?
      ensures exists k :: k in r.known && r.known[k] == i
    {
      if i == |s.futures| {
        assert r.known[key] == i;
      } else {
        var k :| k in s.known && s.known[k] == i;
        assert r.known[k] == i;
      }
    }
  }

  lemma SettleKeepsInv(s: State, id: nat, value: Value)
    requires Inv(s) && id < |s.futures| && s.futures[id].Pending?
    ensures Inv(Settle(s, id, value))
  {
  }

  lemma StepKeepsInv(s: State, op: Op)
    requires Inv(s)
    ensures Inv(Step(s, op))
  {
    if op.Read? {
      if op.key !in s.known { CreateKeepsInv(s, op.key); }
    } else if op.key in s.known && s.futures[s.known[op.key]].Pending? {
      SettleKeepsInv(s, s.known[op.key], op.value);
    } else if op.key !in s.known || s.existsSet {
      CreateKeepsInv(s, op.key);
      SettleKeepsInv(Create(s, op.key), |s.futures|, op.value);
    }
  }

  // ---------- Histories ----------

  function Fresh(existsSet: bool): State {
    State(map[], [], existsSet)
  }

  ghost function Run(existsSet: bool, ops: seq<Op>): (s: State)
    ensures Inv(s) && s.existsSet == existsSet
  {
    if ops == [] then Fresh(existsSet)
    else
      var before := Run(existsSet, ops[..|ops| - 1]);
      StepKeepsInv(before, ops[|ops| - 1]);
      Step(before, ops[|ops| - 1])
  }

  lemma RunSnoc(existsSet: bool, ops: seq<Op>, op: Op)
    ensures Run(existsSet, ops + [op]) == Step(Run(existsSet, ops), op)
  {
    assert (ops + [op])[..|ops|] == ops;
  }

  /** The values written to a key, in order. */
  function Writes(ops: seq<Op>, key: Key): seq<Value> {
    if ops == [] then []
    else
      var last := ops[|ops| - 1];
      Writes(ops[..|ops| - 1], key) + if last.Write? && last.key == key then [last.value] else []
  }

  /** What a reader who comes after these writes sees: the first of them or the latest. */
  function Current(existsSet: bool, writes: seq<Value>): Future {
    if writes == [] then Pending
    else Done(if existsSet then writes[|writes| - 1] else writes[0])
  }

  /** What a reader who came after the writes `before` sees once `all` have been made. */
  function Seen(existsSet: bool, before: seq<Value>, all: seq<Value>): Future {
    if before != [] then Current(existsSet, before)
    else if all != [] then Done(all[0])
    else Pending
  }

  lemma CurrentAfterStep(s: State, op: Op, key: Key, writes: seq<Value>)
    requires Inv(s)
    requires key in s.known ==> s.futures[s.known[key]] == Current(s.existsSet, writes)
    requires key !in s.known ==> writes == []
    ensures Inv(Step(s, op))
    ensures var r, w := Step(s, op), writes + if op.Write? && op.key == key then [op.value] else [];
            if key in r.known then r.futures[r.known[key]] == Current(s.existsSet, w) else w == []
  {
    StepKeepsInv(s, op);
    if op.Write? && op.key == key {
      var w := writes + [op.value];
      assert w[|w| - 1] == op.value && (writes != [] ==> w[0] == writes[0]);
      SetHoldsCurrent(s, key, op.value, writes);
    } else {
      assert writes + [] == writes;
      if op.key != key {
        OtherKeysStay(s, op, key);
      }
    }
  }

  lemma SetHoldsCurrent(s: State, key: Key, value: Value, writes: seq<Value>)
    requires Inv(s)
    requires key in s.known ==> s.futures[s.known[key]] == Current(s.existsSet, writes)
    requires key !in s.known ==> writes == []
    ensures var r := Set(s, key, value);
            && key in r.known && r.known[key] < |r.futures|
            && r.futures[r.known[key]] == if writes == [] || s.existsSet then Done(value) else Done(writes[0])
  {
  }

  lemma OtherKeysStay(s: State, op: Op, key: Key)
    requires Inv(s) && op.key != key
    ensures var r := Step(s, op);
            && (key in r.known <==> key in s.known)
            && (key in s.known ==> r.known[key] == s.known[key] < |r.futures|
                                   && r.futures[r.known[key]] == s.futures[s.known[key]])
  {
  }

  /** The storage is a register: a key's future holds nothing, the first value or the latest. */
  lemma {:induction false} KeyHoldsCurrent(existsSet: bool, ops: seq<Op>, key: Key)
    ensures var s := Run(existsSet, ops);
            if key in s.known then s.futures[s.known[key]] == Current(existsSet, Writes(ops, key))
            else Writes(ops, key) == []
    decreases |ops|
  {
    if ops != [] {
      var n := |ops| - 1;
      KeyHoldsCurrent(existsSet, ops[..n], key);
      CurrentAfterStep(Run(existsSet, ops[..n]), ops[n], key, Writes(ops[..n], key));
    }
  }

  /** A settled future keeps its value; a pending one stays in the table until its key is
      written and then gets that value. */
  lemma FutureAfterStep(s: State, op: Op, id: nat)
    requires Inv(s) && id < |s.futures|
    ensures var r := Step(s, op);
            && id < |r.futures|
            && (s.futures[id].Done? ==> r.futures[id] == s.futures[id])
            && forall key :: key in s.known && s.known[key] == id && s.futures[id].Pending? ==>
                 && key in r.known && r.known[key] == id
                 && r.futures[id] == if op.Write? && op.key == key then Done(op.value) else Pending
  {
  }

  lemma RunLast(existsSet: bool, ops: seq<Op>)
    requires ops != []
    ensures var n := |ops| - 1; Run(existsSet, ops) == Step(Run(existsSet, ops[..n]), ops[n])
  {
  }

  lemma WritesLast(ops: seq<Op>, key: Key)
    requires ops != []
    ensures var n := |ops| - 1;
            Writes(ops, key) ==
            Writes(ops[..n], key) + if ops[n].Write? && ops[n].key == key then [ops[n].value] else []
  {
  }

  /** The future holds this, and is still the one in the table while it is pending. */
  ghost predicate Sees(s: State, key: Key, id: nat, f: Future) {
    && id < |s.futures| && s.futures[id] == f
    && (f.Pending? ==> key in s.known && s.known[key] == id)
  }

  lemma SeesAfterStep(s: State, op: Op, key: Key, id: nat, before: seq<Value>, all: seq<Value>)
    requires Inv(s) && Sees(s, key, id, Seen(s.existsSet, before, all))
    ensures Sees(Step(s, op), key, id,
                 Seen(s.existsSet, before, all + if op.Write? && op.key == key then [op.value] else []))
  {
    hide Step, Inv;
    FutureAfterStep(s, op, id);
    if all == [] { assert all + [] == []; }
  }

  /** A read right at the end of the history. */
  lemma ReaderSeesAtOnce(existsSet: bool, ops: seq<Op>)
    requires ops != [] && ops[|ops| - 1].Read?
    ensures var n := |ops| - 1;
            var key, s := ops[n].key, Run(existsSet, ops);
            && key in s.known
            && Sees(s, key, s.known[key], Seen(existsSet, Writes(ops[..n], key), Writes(ops, key)))
  {
    var n := |ops| - 1;
    var key := ops[n].key;
    KeyHoldsCurrent(existsSet, ops, key);
    WritesLast(ops, key);
    assert Writes(ops, key) == Writes(ops[..n], key);
    RunLast(existsSet, ops);
    assert Run(existsSet, ops) == Get(Run(existsSet, ops[..n]), key);
    hide Run, Inv, Step, Writes, Get;
  }

  /** The future a read handed out, at any later time. */
  lemma {:induction false} ReaderSees(existsSet: bool, ops: seq<Op>, at: nat)
    requires at < |ops| && ops[at].Read?
    ensures var key, s := ops[at].key, Run(existsSet, ops[..at + 1]);
            && key in s.known
            && Sees(Run(existsSet, ops), key, s.known[key],
                    Seen(existsSet, Writes(ops[..at], key), Writes(ops, key)))
    decreases |ops|
  {
    hide Run, Inv, Sees, Seen, Writes, Step, Current;
    var n, key := |ops| - 1, ops[at].key;
    if at == n {
      assert ops[..at + 1] == ops;
      ReaderSeesAtOnce(existsSet, ops);
    } else {
      assert ops[..n][..at + 1] == ops[..at + 1] && ops[..n][..at] == ops[..at];
      ReaderSees(existsSet, ops[..n], at);
      var id := Run(existsSet, ops[..at + 1]).known[key];
      RunLast(existsSet, ops);
      WritesLast(ops, key);
      SeesAfterStep(Run(existsSet, ops[..n]), ops[n], key, id, Writes(ops[..at], key), Writes(ops[..n], key));
    }
  }

  /** No future is ever settled twice: its value never changes again. */
  lemma {:induction false} SettledOnce(existsSet: bool, ops: seq<Op>, more: seq<Op>, id: nat)
    requires id < |Run(existsSet, ops).futures| && Run(existsSet, ops).futures[id].Done?
    ensures id < |Run(existsSet, ops + more).futures|
    ensures Run(existsSet, ops + more).futures[id] == Run(existsSet, ops).futures[id]
    decreases |more|
  {
    hide Run;
    if more == [] {
      assert ops + more == ops;
    } else {
      var longer := ops + [more[0]];
      RunSnoc(existsSet, ops, more[0]);
      FutureAfterStep(Run(existsSet, ops), more[0], id);
      SettledOnce(existsSet, longer, more[1..], id);
      assert ops + more == longer + more[1..];
    }
  }
}
