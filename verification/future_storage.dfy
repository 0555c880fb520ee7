/** `FutureStorage` itself: futures are objects, settled in place. */
module FutureStorages {
  import opened FutureSpec

  class FutureCell {
    var result: Future

    constructor ()
      ensures result == Pending
    {
      result := Pending;
    }

    predicate IsDone()
      reads this
    {
      result.Done?
    }

    /** Raises on a future that is done, so its callers have to know that it is not. */
    method SetResult(value: Value)
      requires !IsDone()
      modifies this
      ensures result == Done(value)
    {
      result := Done(value);
    }
  }

  class FutureStorage {
    const existsSet: bool
    var futures: map<Key, FutureCell>
    /** Every future ever created, and the state they stand for. */
    ghost var created: seq<FutureCell>
    ghost var state: State

    ghost predicate Valid()
      reads this, created
    {
      && Inv(state) && state.existsSet == existsSet
      && |created| == |state.futures|
      && (forall i, j :: 0 <= i < j < |created| ==> created[i] != created[j])
      && (forall i :: 0 <= i < |created| ==> created[i].result == state.futures[i])
      && futures.Keys == state.known.Keys
      && forall k :: k in futures ==> futures[k] == created[state.known[k]]
    }

    constructor (existsSet: bool)
      ensures Valid() && created == [] && state == Fresh(existsSet)
    {
      this.existsSet := existsSet;
      futures, created, state := map[], [], Fresh(existsSet);
    }

    lemma EnterKeepsInv(key: Key)
      requires Valid() && (key in futures ==> futures[key].IsDone())
      ensures Inv(Create(state, key))
    {
      CreateKeepsInv(state, key);
    }

    method Enter(key: Key) returns (cell: FutureCell)
      requires Valid() && (key in futures ==> futures[key].IsDone())
      modifies this
      ensures Valid() && state == Create(old(state), key)
      ensures fresh(cell) && created == old(created) + [cell] && futures[key] == cell
    {
      hide Inv;
      EnterKeepsInv(key);
      cell := new FutureCell();
      futures := futures[key := cell];
      created := created + [cell];
      state := Create(state, key);
    }

    method SettleKey(key: Key, value: Value)
      requires Valid() && key in futures && !futures[key].IsDone()
      modifies `state, futures[key]
      ensures Valid() && state == Settle(old(state), old(state).known[key], value)
    {
      ghost var id := state.known[key];
      SettleKeepsInv(state, id, value);
      futures[key].SetResult(value);
      state := Settle(state, id, value);
    }

    method SetValue(key: Key, value: Value)
      requires Valid()
      modifies this, created
      ensures Valid() && state == Set(old(state), key, value)
      ensures old(created) <= created && forall c :: c in created ==> c in old(created) || fresh(c)
    {
      if key !in futures {
      } else if !futures[key].IsDone() {
        SettleKey(key, value);
        return;
      } else if !existsSet {
        return;
      }
      var cell := Enter(key);
      SettleKey(key, value);
    }

    method GetFuture(key: Key) returns (cell: FutureCell)
      requires Valid()
      modifies this
      ensures Valid() && state == Get(old(state), key)
      ensures old(created) <= created && forall c :: c in created ==> c in old(created) || fresh(c)
      ensures cell == created[state.known[key]]
    {
      if key in futures {
        return futures[key];
      } else {
        cell := Enter(key);
      }
    }
  }
}
