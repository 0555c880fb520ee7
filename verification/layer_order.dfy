/** Where a stack of mappings finds a key, and in which order it yields its keys. */
module LayerOrder {
  import opened Wrappers
  import opened Layers

  // ---------- Priority ----------

  /** The first layer that holds a key. */
  ghost predicate FirstHolds(layers: seq<Layer>, key: string, i: nat) {
    i < |layers| && key in layers[i].entries && forall j :: 0 <= j < i ==> key !in layers[j].entries
  }

  /** A key is read from the first layer that holds it, and is missing if none does. */
  lemma {:induction false} MatchIsFirst(layers: seq<Layer>, key: string)
    ensures FirstMatch(layers, key).None? <==> forall i :: 0 <= i < |layers| ==> key !in layers[i].entries
    ensures forall i: nat :: FirstHolds(layers, key, i) ==> FirstMatch(layers, key) == Some(layers[i].entries[key])
    decreases |layers|
  {
    if layers != [] {
      MatchIsFirst(layers[1..], key);
      forall i: nat | FirstHolds(layers, key, i)
        ensures FirstMatch(layers, key) == Some(layers[i].entries[key])
      {
        if i > 0 {
          assert forall j :: 0 <= j < i - 1 ==> layers[1..][j] == layers[j + 1];
          assert FirstHolds(layers[1..], key, i - 1);
        }
      }
    }
  }

  ghost function Or(x: Option<Value>, y: Option<Value>): Option<Value> {
    if x.Some? then x else y
  }

  /** What the arguments of a request hold, the first of them first. */
  ghost function InArgs(args: seq<Argument>, key: string): Option<Value>
    decreases |args|
  {
    if args == [] then None
    else Or(if args[0].Other? then None else FirstMatch(Maps(args[0].val), key), InArgs(args[1..], key))
  }

  lemma {:induction false} LayersOfMatch(args: seq<Argument>, key: string)
    ensures FirstMatch(LayersOf(args), key) == InArgs(args, key)
    decreases |args|
  {
    if args != [] {
      LayersOfMatch(args[1..], key);
      FirstMatchAppend(if args[0].Other? then [] else Maps(args[0].val), LayersOf(args[1..]), key);
    }
  }

  /** A child reads its arguments, then its keywords, then what it is a child of; a parent is
      read after all that, its keywords last. */
  lemma ChildrenAndParents(m: Mapping, r: Request, key: string)
    requires Coherent(Wanted(Maps(m), r))
    ensures Apply(m, r).Some? <==> Other !in r.args
    ensures Apply(m, r).Some? ==>
              var given, own, base := InArgs(r.args, key), FirstMatch([r.kwargs], key), FirstMatch(Maps(m), key);
              FirstMatch(Maps(Apply(m, r).value), key) ==
              if r.NewChild? then Or(given, Or(own, base)) else Or(base, Or(given, own))
  {
    hide Coherent, Onto, FirstMatch;
    var added := LayersOf(r.args) + [r.kwargs];
    ApplyCollects(m, r);
    assert [] + Wanted(Maps(m), r) == Wanted(Maps(m), r);
    OntoLooksAlike([], Wanted(Maps(m), r), key);
    LayersOfMatch(r.args, key);
    FirstMatchAppend(LayersOf(r.args), [r.kwargs], key);
    FirstMatchAppend(added, Maps(m), key);
    FirstMatchAppend(Maps(m), added, key);
  }

  // ---------- Order ----------

  /** The keys in order, but for those already seen. */
  ghost function Without(keys: seq<string>, seen: seq<string>): (r: seq<string>)
    ensures forall k :: k in r <==> k in keys && k !in seen
    decreases |keys|
  {
    if keys == [] then []
    else
      assert forall k :: k in keys <==> k == keys[0] || k in keys[1..];
      (if keys[0] in seen then [] else [keys[0]]) + Without(keys[1..], seen)
  }

  lemma {:induction false} WithoutSnoc(keys: seq<string>, k: string, seen: seq<string>)
    ensures Without(keys + [k], seen) == if k in seen then Without(keys, seen) else Without(keys, seen) + [k]
    decreases |keys|
  {
    if keys == [] {
      assert [] + [k] == [k] && [k][1..] == [];
    } else {
      assert (keys + [k])[1..] == keys[1..] + [k];
      WithoutSnoc(keys[1..], k, seen);
    }
  }

  lemma HeadFirst(keys: seq<string>, seen: seq<string>)
    requires keys != [] && Distinct(keys)
    ensures Distinct(keys[1..]) && keys[0] !in keys[1..]
    ensures AddNew(seen, keys) == AddNew(if keys[0] in seen then seen else seen + [keys[0]], keys[1..])
    ensures Without(keys, seen) ==
            if keys[0] in seen then Without(keys[1..], seen) else [keys[0]] + Without(keys[1..], seen)
  {
    assert forall j :: 0 <= j < |keys| - 1 ==> keys[1..][j] == keys[j + 1];
  }

  /** Keys that do not repeat are appended in order, but for those there already. */
  lemma {:induction false} AddNewAppends(acc: seq<string>, keys: seq<string>)
    requires Distinct(keys)
    ensures AddNew(acc, keys) == acc + Without(keys, acc)
    decreases |keys|
  {
    hide Distinct;
    if keys == [] {
      NothingWithout(acc);
    } else {
      hide AddNew, Without;
      var k, rest := keys[0], keys[1..];
      HeadFirst(keys, acc);
      if k in acc {
        AddNewAppends(acc, rest);
      } else {
        AddNewAppends(acc + [k], rest);
        NotAgain(rest, acc, k);
        assert acc + [k] + Without(rest, acc) == acc + ([k] + Without(rest, acc));
      }
    }
  }

  lemma {:induction false} NotAgain(keys: seq<string>, seen: seq<string>, k: string)
    requires k !in keys
    ensures Without(keys, seen + [k]) == Without(keys, seen)
    decreases |keys|
  {
    if keys != [] { NotAgain(keys[1..], seen, k); }
  }

  lemma {:induction false} AddLayersAppend(acc: seq<string>, a: seq<Layer>, x: Layer)
    ensures AddLayers(acc, a + [x]) == AddNew(AddLayers(acc, a), x.keys)
    decreases |a|
  {
    if a == [] {
      assert a + [x] == [x] && [x][1..] == [];
    } else {
      assert (a + [x])[1..] == a[1..] + [x];
      AddLayersAppend(AddNew(acc, a[0].keys), a[1..], x);
    }
  }

  lemma {:induction false} AddNewBehind(acc: seq<string>, d: seq<string>, keys: seq<string>)
    ensures AddNew(acc + Without(d, acc), keys) == acc + Without(AddNew(d, keys), acc)
    decreases |keys|
  {
    if keys != [] {
      hide Without;
      var k := keys[0];
      WithoutSnoc(d, k, acc);
      assert k in acc + Without(d, acc) <==> k in acc || k in d;
      assert acc + Without(d, acc) + [k] == acc + (Without(d, acc) + [k]);
      AddNewBehind(acc, if k in d then d else d + [k], keys[1..]);
    }
  }

  lemma {:induction false} AddLayersBehind(acc: seq<string>, d: seq<string>, layers: seq<Layer>)
    ensures AddLayers(acc + Without(d, acc), layers) == acc + Without(AddLayers(d, layers), acc)
    decreases |layers|
  {
    if layers != [] {
      AddNewBehind(acc, d, layers[0].keys);
      AddLayersBehind(acc, AddNew(d, layers[0].keys), layers[1..]);
    }
  }

  ghost predicate AnyMerging(layers: seq<Layer>) {
    exists x :: x in layers && x.merging
  }

  lemma {:induction false} UpToMergingMore(x: Layer, rest: seq<Layer>)
    ensures UpToMerging([x] + rest) == if AnyMerging(rest) then UpToMerging(rest) + 1 else if x.merging then 1 else 0
    ensures AnyMerging(rest) <==> UpToMerging(rest) > 0
    decreases |rest|
  {
    var maps, n := [x] + rest, |rest|;
    if rest == [] {
      assert maps == [x] && maps[..0] == [];
    } else {
      assert maps[n] == rest[n - 1] && maps[..n] == [x] + rest[..n - 1];
      assert rest == rest[..n - 1] + [rest[n - 1]];
      UpToMergingMore(x, rest[..n - 1]);
    }
  }

  /** What the order of iteration is, layer by layer: the layer with the highest priority adds
      its keys last, unless it is the only `MergeDict`, whose keys come first. */
  lemma IterationGrows(x: Layer, rest: seq<Layer>)
    requires Distinct(x.keys)
    ensures IterationOrder([]) == []
    ensures var below := IterationOrder(rest);
            IterationOrder([x] + rest) ==
            if x.merging && !AnyMerging(rest) then x.keys + Without(below, x.keys)
            else below + Without(x.keys, below)
  {
    hide UpToMerging, Backwards, Without;
    var maps, below, i := [x] + rest, IterationOrder(rest), UpToMerging(rest);
    UpToMergingMore(x, rest);
    UpToMergingStops([], 0);
    BackwardsOfNothing();
    BackwardsMore(x, rest);
    AddNewAppends(below, x.keys);
    if AnyMerging(rest) {
      var back := Backwards(rest[i..]) + Backwards(rest[..i - 1]);
      assert maps[i] == rest[i - 1] && maps[i + 1..] == rest[i..] && maps[..i] == [x] + rest[..i - 1];
      BackwardsMore(x, rest[..i - 1]);
      assert Backwards(rest[i..]) + (Backwards(rest[..i - 1]) + [x]) == back + [x];
      AddLayersAppend(rest[i - 1].keys, back, x);
    } else if x.merging {
      assert maps[0] == x && maps[1..] == rest && maps[..0] == [];
      assert Backwards(rest) + [] == Backwards(rest);
      NothingWithout(x.keys);
      AddLayersBehind(x.keys, [], Backwards(rest));
    } else {
      AddLayersAppend([], Backwards(rest), x);
    }
  }

  lemma BackwardsMore(x: Layer, rest: seq<Layer>)
    ensures Backwards([x] + rest) == Backwards(rest) + [x]
  {
    assert ([x] + rest)[1..] == rest;
  }

  lemma NothingWithout(seen: seq<string>)
    ensures seen + Without([], seen) == seen
  {
  }
}
