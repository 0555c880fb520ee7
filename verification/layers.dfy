/** `ValueExtractor`: a read view on mappings stacked in order of priority. */
module Layers {
  import opened Wrappers

  type Value(==, !new)

  /** A mapping object as it stands: its identity, whether it is a `MergeDict`, its keys in the
      order they iterate in, and its contents. */
  datatype Layer = Layer(id: nat, merging: bool, keys: seq<string>, entries: map<string, Value>)

  /** What a view wraps: one mapping, or a `ChainMap` with the highest priority first. */
  datatype Mapping = One(layer: Layer) | Chained(maps: seq<Layer>)

  /** An argument of `new_child` or `new_parent`: a view, a bare mapping, or no mapping at all. */
  datatype Argument = View(val: Mapping) | Bare(val: Mapping) | Other

  // ---------- Looking up ----------

  function Maps(m: Mapping): seq<Layer> {
    if m.One? then [m.layer] else m.maps
  }

  function FirstMatch(layers: seq<Layer>, key: string): Option<Value> {
    if layers == [] then None
    else if key in layers[0].entries then Some(layers[0].entries[key])
    else FirstMatch(layers[1..], key)
  }

  /** An identity names one object, and a mapping yields each of its keys once. */
  ghost predicate Coherent(layers: seq<Layer>) {
    && (forall x, y :: x in layers && y in layers && x.id == y.id ==> x == y)
    && forall x :: x in layers ==> Distinct(x.keys) && forall k :: k in x.keys <==> k in x.entries
  }

  ghost predicate Distinct(keys: seq<string>) {
    forall i, j :: 0 <= i < j < |keys| ==> keys[i] != keys[j]
  }

  lemma {:induction false} FirstMatchAppend(a: seq<Layer>, b: seq<Layer>, key: string)
    ensures FirstMatch(a + b, key) == if FirstMatch(a, key).Some? then FirstMatch(a, key) else FirstMatch(b, key)
    decreases |a|
  {
    if a == [] {
      assert a + b == b;
    } else {
      assert (a + b)[1..] == a[1..] + b;
      FirstMatchAppend(a[1..], b, key);
    }
  }

  lemma {:induction false} MatchIffHolds(layers: seq<Layer>, key: string)
    ensures FirstMatch(layers, key).Some? <==> exists x :: x in layers && key in x.entries
    decreases |layers|
  {
    if layers != [] {
      MatchIffHolds(layers[1..], key);
      assert forall x :: x in layers <==> x == layers[0] || x in layers[1..];
    }
  }

  // ---------- Dropping repeated objects ----------

  predicate HasId(layers: seq<Layer>, id: nat) {
    exists i :: 0 <= i < |layers| && layers[i].id == id
  }

  predicate DistinctIds(layers: seq<Layer>) {
    forall i, j :: 0 <= i < j < |layers| ==> layers[i].id != layers[j].id
  }

  function Add(acc: seq<Layer>, x: Layer): seq<Layer> {
    if HasId(acc, x.id) then acc else acc + [x]
  }

  /** The layers in order, each object at its first place only. */
  function Onto(acc: seq<Layer>, layers: seq<Layer>): seq<Layer>
    decreases |layers|
  {
    if layers == [] then acc else Onto(Add(acc, layers[0]), layers[1..])
  }

  lemma {:induction false} OntoHasIds(acc: seq<Layer>, layers: seq<Layer>, id: nat)
    ensures HasId(Onto(acc, layers), id) <==> HasId(acc, id) || HasId(layers, id)
    decreases |layers|
  {
    if layers != [] {
      var next := Add(acc, layers[0]);
      OntoHasIds(next, layers[1..], id);
      assert HasId(next, id) <==> HasId(acc, id) || layers[0].id == id by {
        if HasId(acc, id) {
          var i :| 0 <= i < |acc| && acc[i].id == id;
          assert next[i].id == id;
        }
        if !HasId(acc, layers[0].id) { assert next[|acc|] == layers[0]; }
      }
      assert HasId(layers, id) <==> layers[0].id == id || HasId(layers[1..], id) by {
        if HasId(layers[1..], id) {
          var i :| 0 <= i < |layers[1..]| && layers[1..][i].id == id;
          assert layers[i + 1].id == id;
        }
        if i :| 0 <= i < |layers| && layers[i].id == id {
          assert i == 0 || layers[1..][i - 1].id == id;
        }
      }
    }
  }

  lemma {:induction false} OntoAppend(acc: seq<Layer>, a: seq<Layer>, b: seq<Layer>)
    ensures Onto(acc, a + b) == Onto(Onto(acc, a), b)
    decreases |a|
  {
    if a == [] {
      assert a + b == b;
    } else {
      assert (a + b)[1..] == a[1..] + b;
      OntoAppend(Add(acc, a[0]), a[1..], b);
    }
  }

  lemma OntoSnoc(acc: seq<Layer>, a: seq<Layer>, x: Layer)
    ensures Onto(acc, a + [x]) == Add(Onto(acc, a), x)
  {
    OntoAppend(acc, a, [x]);
    assert [x][1..] == [];
  }

  /** Removing repetitions before appending to something, or not, makes no difference. */
  lemma {:induction false} OntoAbsorbs(acc: seq<Layer>, d: seq<Layer>, b: seq<Layer>)
    ensures Onto(acc, Onto(d, b)) == Onto(Onto(acc, d), b)
    decreases |b|
  {
    if b != [] {
      var x := b[0];
      OntoAbsorbs(acc, Add(d, x), b[1..]);
      assert Onto(acc, Add(d, x)) == Add(Onto(acc, d), x) by {
        if HasId(d, x.id) {
          OntoHasIds(acc, d, x.id);
        } else {
          OntoSnoc(acc, d, x);
        }
      }
    }
  }

  lemma {:induction false} OntoKeepsDistinct(acc: seq<Layer>, layers: seq<Layer>)
    requires DistinctIds(acc)
    ensures DistinctIds(Onto(acc, layers))
    decreases |layers|
  {
    if layers != [] { OntoKeepsDistinct(Add(acc, layers[0]), layers[1..]); }
  }

  /** A repeated object changes no lookup, wherever it is dropped. */
  lemma {:induction false} OntoLooksAlike(acc: seq<Layer>, layers: seq<Layer>, key: string)
    requires Coherent(acc + layers)
    ensures FirstMatch(Onto(acc, layers), key) == FirstMatch(acc + layers, key)
    ensures forall x :: x in Onto(acc, layers) ==> x in acc + layers
    decreases |layers|
  {
    if layers == [] {
      assert acc + layers == acc;
    } else {
      var x, rest := layers[0], layers[1..];
      assert acc + layers == (acc + [x]) + rest;
      if HasId(acc, x.id) {
        assert x in acc + layers;
        assert forall y :: y in acc + rest ==> y in acc + layers;
        OntoLooksAlike(acc, rest, key);
        FirstMatchAppend(acc + [x], rest, key);
        FirstMatchAppend(acc, [x], key);
        FirstMatchAppend(acc, rest, key);
        MatchIffHolds(acc, key);
        MatchIffHolds([x], key);
      } else {
        OntoLooksAlike(acc + [x], rest, key);
      }
    }
  }

  // ---------- Children and parents ----------

  function LayersOf(args: seq<Argument>): seq<Layer> {
    if args == [] then []
    else (if args[0].Other? then [] else Maps(args[0].val)) + LayersOf(args[1..])
  }

  predicate AreMappings(args: seq<Argument>) {
    Other !in args
  }

  /** `_mapping_factory`, which raises on anything that is no mapping. */
  function Factory(args: seq<Argument>): Option<Mapping> {
    if AreMappings(args) then Some(Chained(Onto([], LayersOf(args)))) else None
  }

  datatype Request = NewChild(args: seq<Argument>, kwargs: Layer) | NewParent(args: seq<Argument>, kwargs: Layer)

  function Apply(m: Mapping, r: Request): Option<Mapping> {
    match r
    case NewChild(args, kwargs) => Factory(args + [Bare(One(kwargs)), Bare(m)])
    case NewParent(args, kwargs) => Factory([Bare(m)] + args + [Bare(One(kwargs))])
  }

  function ApplyAll(m: Mapping, rs: seq<Request>): Option<Mapping>
    decreases |rs|
  {
    if rs == [] then Some(m)
    else match Apply(m, rs[0]) case None => None case Some(next) => ApplyAll(next, rs[1..])
  }

  /** The layers in the order of priority the caller asked for, repetitions included. */
  function Wanted(layers: seq<Layer>, r: Request): seq<Layer> {
    var added := LayersOf(r.args) + [r.kwargs];
    if r.NewChild? then added + layers else layers + added
  }

  function WantedAll(layers: seq<Layer>, rs: seq<Request>): seq<Layer>
    decreases |rs|
  {
    if rs == [] then layers else WantedAll(Wanted(layers, rs[0]), rs[1..])
  }

  predicate Acceptable(rs: seq<Request>) {
    forall i :: 0 <= i < |rs| ==> AreMappings(rs[i].args)
  }

  lemma {:induction false} LayersOfAppend(a: seq<Argument>, b: seq<Argument>)
    ensures LayersOf(a + b) == LayersOf(a) + LayersOf(b)
    decreases |a|
  {
    if a == [] {
      assert a + b == b;
    } else {
      assert (a + b)[1..] == a[1..] + b;
      LayersOfAppend(a[1..], b);
    }
  }

  lemma LayersOfOne(m: Mapping)
    ensures LayersOf([Bare(m)]) == Maps(m)
  {
    assert [Bare(m)][1..] == [];
  }

  /** What `new_child` and `new_parent` hand to the factory. */
  lemma ApplyCollects(m: Mapping, r: Request)
    ensures Apply(m, r) == if AreMappings(r.args) then Some(Chained(Onto([], Wanted(Maps(m), r)))) else None
  {
    var k := Bare(One(r.kwargs));
    LayersOfOne(m);
    LayersOfOne(One(r.kwargs));
    if r.NewChild? {
      assert r.args + [k, Bare(m)] == (r.args + [k]) + [Bare(m)];
      LayersOfAppend(r.args, [k]);
      LayersOfAppend(r.args + [k], [Bare(m)]);
    } else {
      LayersOfAppend([Bare(m)], r.args);
      LayersOfAppend([Bare(m)] + r.args, [k]);
      assert Maps(m) + LayersOf(r.args) + [r.kwargs] == Maps(m) + (LayersOf(r.args) + [r.kwargs]);
    }
  }

  predicate Shows(m: Mapping, layers: seq<Layer>) {
    Maps(m) == layers || Maps(m) == Onto([], layers)
  }

  /** One request on a view that shows `layers`: the new view shows the wanted layers. */
  lemma ApplyShows(m: Mapping, layers: seq<Layer>, r: Request)
    requires Shows(m, layers)
    ensures Apply(m, r) == if AreMappings(r.args) then Some(Chained(Onto([], Wanted(layers, r)))) else None
  {
    ApplyCollects(m, r);
    var added := LayersOf(r.args) + [r.kwargs];
    if r.NewChild? {
      OntoAppend([], added, Maps(m));
      OntoAppend([], added, layers);
      OntoAbsorbs(Onto([], added), [], layers);
    } else {
      OntoAppend([], Maps(m), added);
      OntoAppend([], layers, added);
      OntoAbsorbs([], [], layers);
    }
  }

  lemma {:induction false} ApplyAllShows(m: Mapping, layers: seq<Layer>, rs: seq<Request>)
    requires Shows(m, layers)
    ensures ApplyAll(m, rs).Some? <==> Acceptable(rs)
    ensures ApplyAll(m, rs).Some? ==> Shows(ApplyAll(m, rs).value, WantedAll(layers, rs))
    decreases |rs|
  {
    if rs != [] {
      ApplyShows(m, layers, rs[0]);
      assert Acceptable(rs) <==> AreMappings(rs[0].args) && Acceptable(rs[1..]);
      if AreMappings(rs[0].args) { ApplyAllShows(Apply(m, rs[0]).value, Wanted(layers, rs[0]), rs[1..]); }
    }
  }

  /** Any sequence of children and parents fails exactly if an argument is no mapping, and
      otherwise reads as the first match in the order asked for. */
  lemma LayeredLookup(m: Mapping, rs: seq<Request>, key: string)
    requires Coherent(WantedAll(Maps(m), rs))
    ensures ApplyAll(m, rs).Some? <==> Acceptable(rs)
    ensures ApplyAll(m, rs).Some? ==>
              FirstMatch(Maps(ApplyAll(m, rs).value), key) == FirstMatch(WantedAll(Maps(m), rs), key)
  {
    ApplyAllShows(m, Maps(m), rs);
    var wanted := WantedAll(Maps(m), rs);
    assert [] + wanted == wanted;
    OntoLooksAlike([], wanted, key);
  }

  // ---------- Iterating ----------

  function AddNew(acc: seq<string>, keys: seq<string>): seq<string>
    decreases |keys|
  {
    if keys == [] then acc else AddNew(if keys[0] in acc then acc else acc + [keys[0]], keys[1..])
  }

  function AddLayers(acc: seq<string>, layers: seq<Layer>): seq<string>
    decreases |layers|
  {
    if layers == [] then acc else AddLayers(AddNew(acc, layers[0].keys), layers[1..])
  }

  lemma {:induction false} AddNewAdds(acc: seq<string>, keys: seq<string>)
    requires Distinct(acc)
    ensures var r := AddNew(acc, keys);
            Distinct(r) && acc <= r && forall k :: k in r <==> k in acc || k in keys
    decreases |keys|
  {
    if keys != [] {
      AddNewAdds(if keys[0] in acc then acc else acc + [keys[0]], keys[1..]);
      assert forall k :: k in keys <==> k == keys[0] || k in keys[1..];
    }
  }

  lemma {:induction false} AddLayersAdds(acc: seq<string>, layers: seq<Layer>)
    requires Distinct(acc)
    ensures var r := AddLayers(acc, layers);
            Distinct(r) && acc <= r && forall k :: k in r <==> k in acc || exists x :: x in layers && k in x.keys
    decreases |layers|
  {
    if layers != [] {
      AddNewAdds(acc, layers[0].keys);
      AddLayersAdds(AddNew(acc, layers[0].keys), layers[1..]);
      assert forall x :: x in layers <==> x == layers[0] || x in layers[1..];
    }
  }

  /** The keys a view has, as its `len` counts them. */
  function KeySet(layers: seq<Layer>): set<string> {
    set x, k | x in layers && k in x.entries :: k
  }

  lemma {:induction false} DistinctCount(keys: seq<string>)
    requires Distinct(keys)
    ensures |set k | k in keys| == |keys|
    decreases |keys|
  {
    if keys != [] {
      var n := |keys| - 1;
      DistinctCount(keys[..n]);
      assert keys == keys[..n] + [keys[n]];
      assert (set k | k in keys) == (set k | k in keys[..n]) + {keys[n]};
    }
  }

  /** A layer is the lowest `MergeDict` of a stack. */
  predicate LowestMerging(layers: seq<Layer>, at: nat) {
    at < |layers| && layers[at].merging && forall i :: at < i < |layers| ==> !layers[i].merging
  }

  function Backwards(layers: seq<Layer>): (r: seq<Layer>)
    ensures |r| == |layers| && forall i :: 0 <= i < |r| ==> r[i] == layers[|layers| - 1 - i]
    ensures forall x :: x in r <==> x in layers
  {
    if layers == [] then []
    else
      assert forall x :: x in layers <==> x == layers[0] || x in layers[1..];
      Backwards(layers[1..]) + [layers[0]]
  }

  /** How many layers are left when the search from below meets a `MergeDict`, or none. */
  function UpToMerging(maps: seq<Layer>): (i: nat)
    ensures i <= |maps|
    ensures i > 0 ==> LowestMerging(maps, i - 1)
    ensures i == 0 ==> forall x :: x in maps ==> !x.merging
  {
    if maps == [] || maps[|maps| - 1].merging then |maps|
    else
      assert maps == maps[..|maps| - 1] + [maps[|maps| - 1]];
      UpToMerging(maps[..|maps| - 1])
  }

  /** The keys of the lowest `MergeDict`, then what the other layers add, lowest first. */
  function IterationOrder(maps: seq<Layer>): seq<string> {
    var i := UpToMerging(maps);
    if i == 0 then AddLayers([], Backwards(maps))
    else AddLayers(maps[i - 1].keys, Backwards(maps[i..]) + Backwards(maps[..i - 1]))
  }

  lemma IterationMembers(maps: seq<Layer>)
    requires Coherent(maps)
    ensures var out := IterationOrder(maps);
            && Distinct(out)
            && (forall k :: k in out <==> exists x :: x in maps && k in x.keys)
            && forall at: nat :: LowestMerging(maps, at) ==> maps[at].keys <= out
  {
    var i := UpToMerging(maps);
    if i == 0 {
      AddLayersAdds([], Backwards(maps));
    } else {
      var x, rest := maps[i - 1], Backwards(maps[i..]) + Backwards(maps[..i - 1]);
      assert x in maps;
      AddLayersAdds(x.keys, rest);
      Rearranged(maps, i - 1, rest);
    }
  }

  lemma Rearranged(maps: seq<Layer>, at: nat, rest: seq<Layer>)
    requires at < |maps| && rest == Backwards(maps[at + 1..]) + Backwards(maps[..at])
    ensures forall y :: y in maps <==> y == maps[at] || y in rest
  {
    assert maps == maps[..at] + [maps[at]] + maps[at + 1..];
  }

  /** A view yields every key it has a value for, once, and the lowest `MergeDict`'s first. */
  lemma IterationCovers(maps: seq<Layer>)
    requires Coherent(maps)
    ensures var out := IterationOrder(maps);
            && Distinct(out) && |out| == |KeySet(maps)|
            && (forall k :: k in out <==> FirstMatch(maps, k).Some?)
            && forall at: nat :: LowestMerging(maps, at) ==> maps[at].keys <= out
  {
    IterationMembers(maps);
    CountKeys(maps, IterationOrder(maps));
  }

  lemma CountKeys(layers: seq<Layer>, out: seq<string>)
    requires Coherent(layers) && Distinct(out)
    requires forall k :: k in out <==> exists x :: x in layers && k in x.keys
    ensures |out| == |KeySet(layers)|
    ensures forall k :: k in out <==> FirstMatch(layers, k).Some?
  {
    forall k
      ensures k in out <==> k in KeySet(layers)
      ensures k in out <==> FirstMatch(layers, k).Some?
    {
      MatchIffHolds(layers, k);
      assert forall x :: x in layers ==> (k in x.keys <==> k in x.entries);
    }
    assert (set k | k in out) == KeySet(layers);
    DistinctCount(out);
  }

  /** `__iter__` */
  method Iterate(m: Mapping) returns (out: seq<string>)
    requires Coherent(Maps(m))
    ensures Distinct(out) && |out| == |KeySet(Maps(m))|
    ensures forall k :: k in out <==> FirstMatch(Maps(m), k).Some?
    ensures out == if m.One? then m.layer.keys else IterationOrder(m.maps)
  {
    if m.One? {
      out := m.layer.keys;
      assert m.layer in Maps(m);
      CountKeys([m.layer], out);
    } else {
      out := IterateChain(m.maps);
      IterationCovers(m.maps);
    }
  }

  /** The lowest `MergeDict` is found from below; the rest follow, lowest first. */
  method IterateChain(maps: seq<Layer>) returns (out: seq<string>)
    ensures out == IterationOrder(maps)
  {
    hide UpToMerging, Backwards, AddLayers;
    var i, stack := |maps|, [];
    assert maps[|maps|..] == [] && maps[..|maps|] == maps;
    BackwardsOfNothing();
    while i > 0 && !maps[i - 1].merging
      invariant 0 <= i <= |maps| && stack == Backwards(maps[i..])
      invariant UpToMerging(maps[..i]) == UpToMerging(maps)
    {
      i := i - 1;
      OneLayerDown(maps, i);
      stack := stack + [maps[i]];
    }
    UpToMergingStops(maps, i);
    out := [];
    if i > 0 {
      i := i - 1;
      out := maps[i].keys;
    } else {
      assert maps[0..] == maps && maps[..0] == [] && Backwards(maps) + [] == Backwards(maps);
    }
    stack := stack + Backwards(maps[..i]);
    out := AddAll(out, stack);
  }

  lemma BackwardsOfNothing()
    ensures Backwards([]) == []
  {
  }

  lemma OneLayerDown(maps: seq<Layer>, i: nat)
    requires i < |maps| && !maps[i].merging
    ensures Backwards(maps[i..]) == Backwards(maps[i + 1..]) + [maps[i]]
    ensures UpToMerging(maps[..i]) == UpToMerging(maps[..i + 1])
  {
    assert maps[i..][1..] == maps[i + 1..];
    assert maps[..i + 1][..i] == maps[..i];
  }

  lemma UpToMergingStops(maps: seq<Layer>, i: nat)
    requires i <= |maps| && (i == 0 || maps[i - 1].merging)
    ensures UpToMerging(maps[..i]) == i
  {
  }

  method AddAll(start: seq<string>, stack: seq<Layer>) returns (out: seq<string>)
    ensures out == AddLayers(start, stack)
  {
    out := start;
    assert stack[0..] == stack;
    for i := 0 to |stack|
      invariant AddLayers(out, stack[i..]) == AddLayers(start, stack)
    {
      var keys := stack[i].keys;
      assert stack[i..][1..] == stack[i + 1..];
      ghost var target := AddNew(out, keys);
      assert keys[0..] == keys;
      for j := 0 to |keys|
        invariant AddNew(out, keys[j..]) == target
      {
        assert keys[j..][1..] == keys[j + 1..];
        if keys[j] !in out { out := out + [keys[j]]; }
      }
    }
  }

  // ---------- The factory ----------

  /** The layers an insertion-ordered dictionary from identities holds. */
  function Ordered(ids: seq<nat>, table: map<nat, Layer>): (r: seq<Layer>)
    requires forall i :: i in ids ==> i in table
    ensures |r| == |ids| && forall i :: 0 <= i < |ids| ==> r[i] == table[ids[i]]
  {
    if ids == [] then [] else [table[ids[0]]] + Ordered(ids[1..], table)
  }

  ghost predicate Holds(ids: seq<nat>, table: map<nat, Layer>, seen: seq<Layer>) {
    && (forall i :: i in ids <==> i in table)
    && (forall i :: i in table ==> table[i] in seen && table[i].id == i)
    && Ordered(ids, table) == Onto([], seen)
  }

  lemma HoldsOneMore(ids: seq<nat>, table: map<nat, Layer>, seen: seq<Layer>, x: Layer)
    requires Holds(ids, table, seen) && (x.id in table ==> table[x.id] == x)
    ensures Holds(if x.id in table then ids else ids + [x.id], table[x.id := x], seen + [x])
  {
    hide Onto;
    OntoSnoc([], seen, x);
    var was := Ordered(ids, table);
    if x.id in table {
      assert table[x.id := x] == table;
      assert Onto([], seen + [x]) == was by {
        var i :| 0 <= i < |ids| && ids[i] == x.id;
        assert was[i].id == x.id;
      }
    } else {
      var now := Ordered(ids + [x.id], table[x.id := x]);
      assert forall i :: 0 <= i < |ids| ==> ids[i] in ids && now[i] == was[i];
      assert now == was + [x];
    }
  }

  method MappingFactory(mappings: seq<Argument>) returns (r: Option<Mapping>)
    requires Coherent(LayersOf(mappings))
    ensures r == Factory(mappings)
  {
    ghost var all := LayersOf(mappings);
    var ids: seq<nat>, table: map<nat, Layer> := [], map[];
    ghost var seen: seq<Layer> := [];
    assert mappings[0..] == mappings;
    for i := 0 to |mappings|
      invariant forall j :: 0 <= j < i ==> !mappings[j].Other?
      invariant seen + LayersOf(mappings[i..]) == all && Holds(ids, table, seen)
    {
      assert mappings[i..][1..] == mappings[i + 1..];
      if mappings[i].Other? { return None; }
      ghost var maps, rest := Maps(mappings[i].val), LayersOf(mappings[i + 1..]);
      assert seen + (maps + rest) == (seen + maps) + rest;
      ids, table := AddMaps(ids, table, seen, Maps(mappings[i].val), all);
      seen := seen + maps;
    }
    assert seen + [] == seen;
    return Some(Chained(Ordered(ids, table)));
  }

  method AddMaps(ids: seq<nat>, table: map<nat, Layer>, ghost seen: seq<Layer>, maps: seq<Layer>, ghost all: seq<Layer>)
    returns (newIds: seq<nat>, newTable: map<nat, Layer>)
    requires Coherent(all) && Holds(ids, table, seen) && forall x :: x in seen + maps ==> x in all
    ensures Holds(newIds, newTable, seen + maps)
  {
    hide Holds, Coherent;
    newIds, newTable := ids, table;
    assert seen + maps[..0] == seen;
    for j := 0 to |maps|
      invariant Holds(newIds, newTable, seen + maps[..j])
    {
      var mn := maps[j];
      SameObject(newIds, newTable, seen, maps, all, j);
      HoldsOneMore(newIds, newTable, seen + maps[..j], mn);
      assert (seen + maps[..j]) + [mn] == seen + maps[..j + 1];
      if mn.id !in newTable { newIds := newIds + [mn.id]; }
      newTable := newTable[mn.id := mn];
    }
    assert maps[..|maps|] == maps;
  }

  lemma SameObject(ids: seq<nat>, table: map<nat, Layer>, seen: seq<Layer>, maps: seq<Layer>, all: seq<Layer>, j: nat)
    requires Coherent(all) && forall x :: x in seen + maps ==> x in all
    requires j < |maps| && Holds(ids, table, seen + maps[..j])
    ensures maps[j].id in table ==> table[maps[j].id] == maps[j]
  {
    var x := maps[j];
    if x.id in table {
      var y := table[x.id];
      assert y in seen + maps[..j] && y in seen + maps && x in seen + maps;
    }
  }
}
