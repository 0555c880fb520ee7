/** What a raw source does to a configuration, as a value: the effect of each entry on
    whatever is there, and exactly when loading a source is merging its normal form. */
module ConfigEffect {
  import opened Wrappers
  import opened ConfigSpec
  import opened ConfigMerge
  import opened ConfigWrite

  /** The effect on one place: put a tree there whatever it held; or work on the mapping it
      holds, entry by entry, and put a tree there if it holds none. */
  datatype Effect = Put(tree: Tree) | Within(otherwise: Tree, kids: map<string, Effect>)

  function At(m: Kids, k: string): Option<Tree> {
    if k in m then Some(m[k]) else None
  }

  function Apply(place: Option<Tree>, e: Effect): Tree
    decreases e
  {
    match e
    case Put(t) => t
    case Within(otherwise, kids) =>
      if place.None? || place.value.Leaf? then otherwise
      else
        var m := place.value.kids;
        Node(map k | k in m.Keys + kids.Keys :: if k in kids then Apply(At(m, k), kids[k]) else m[k])
  }

  function Onto(m: Kids, e: Effect): Tree {
    Apply(Some(Node(m)), e)
  }

  /** One effect after the other. */
  function Compose(d: Effect, e: Effect): (r: Effect)
    ensures d.Within? && e.Within? ==> r.Within?
    decreases e
  {
    if e.Put? then e
    else if d.Put? then Put(Apply(Some(d.tree), e))
    else
      Within(Apply(Some(d.otherwise), e),
             map k | k in d.kids.Keys + e.kids.Keys ::
               if k !in e.kids then d.kids[k]
               else if k !in d.kids then e.kids[k]
               else Compose(d.kids[k], e.kids[k]))
  }

  lemma {:induction false} ComposeApplies(place: Option<Tree>, d: Effect, e: Effect)
    ensures Apply(place, Compose(d, e)) == Apply(Some(Apply(place, d)), e)
    decreases e
  {
    if d.Within? && e.Within? && place.Some? && place.value.Node? {
      var m := place.value.kids;
      var m1 := Apply(place, d).kids;
      var left, right := Apply(place, Compose(d, e)), Apply(Some(Node(m1)), e);
      assert left.kids.Keys == right.kids.Keys;
      forall k | k in left.kids ensures left.kids[k] == right.kids[k] {
        if k in d.kids && k in e.kids {
          ComposeApplies(At(m, k), d.kids[k], e.kids[k]);
        }
      }
      assert left.kids == right.kids;
    }
  }

  // ---------- The effect of a source ----------

  /** Merging a tree. */
  function Merging(u: Tree): (e: Effect)
    ensures e.Within? <==> u.Node?
  {
    if u.Leaf? then Put(u) else Within(u, map k | k in u.kids :: Merging(u.kids[k]))
  }

  lemma {:induction false} MergingMerges(a: Tree, u: Tree)
    ensures Apply(Some(a), Merging(u)) == Merge(a, u) && Apply(None, Merging(u)) == u
    decreases u
  {
    if a.Node? && u.Node? {
      forall k | k in u.kids ensures Apply(At(a.kids, k), Merging(u.kids[k])) ==
                                     if k in a.kids then Merge(a.kids[k], u.kids[k]) else u.kids[k]
      {
        MergingMerges(if k in a.kids then a.kids[k] else a, u.kids[k]);
      }
      assert Apply(Some(a), Merging(u)).kids == Merge(a, u).kids;
    }
  }

  function One(k: string, e: Effect): (r: Effect)
    ensures r.Within?
  {
    Within(Node(map[k := Apply(None, e)]), map[k := e])
  }

  function EffectOf(src: Source): Effect
    decreases src, 4
  {
    match src
    case Plain(x) => Put(Leaf(x))
    case Dict(items) => Within(Fresh(src), EffectOfAll(items).kids)
  }

  function EffectOfAll(items: seq<Pair>): (e: Effect)
    ensures e.Within?
    decreases items, 3
  {
    if items == [] then Within(Node(map[]), map[])
    else Compose(EffectOfItem(items[0].key, items[0].value), EffectOfAll(items[1..]))
  }

  function EffectOfPath(path: Path, replace: bool, src: Source): (e: Effect)
    requires path != []
    ensures e.Within?
    decreases src, 6, |path|
  {
    One(path[0],
        if |path| > 1 then EffectOfPath(path[1..], replace, src)
        else if replace && src.Dict? then Merging(Fresh(src))
        else EffectOf(src))
  }

  function EffectOfItem(key: string, src: Source): (e: Effect)
    ensures e.Within?
    decreases src, 7
  {
    var k := ParseKey(key);
    if |k.path| > 1 then EffectOfPath(k.path, k.replace, src)
    else One(k.path[0], if k.replace then Put(Fresh(src)) else EffectOf(src))
  }

  lemma OneApplies(m: Kids, k: string, e: Effect)
    ensures Onto(m, One(k, e)) == Node(m[k := Apply(At(m, k), e)])
  {
    assert Onto(m, One(k, e)).kids == m[k := Apply(At(m, k), e)];
  }

  lemma {:induction false} PathActs(m: Kids, path: Path, replace: bool, src: Source)
    requires path != []
    ensures Node(SetPath(m, path, replace, src)) == Onto(m, EffectOfPath(path, replace, src))
    decreases src, 6, |path|
  {
    if |path| > 1 {
      var inner := EffectOfPath(path[1..], replace, src);
      OneApplies(m, path[0], inner);
      PathActs(Child(m, path[0]), path[1..], replace, src);
      NothingThere(path[1..], replace, src);
    } else if replace && src.Dict? {
      OneApplies(m, path[0], Merging(Fresh(src)));
      MergingMerges(if path[0] in m then m[path[0]] else Fresh(src), Fresh(src));
    } else {
      OneApplies(m, path[0], EffectOf(src));
      AssignActs(m, path[0], src);
    }
  }

  /** In the place of nothing, a path is written as into an empty mapping. */
  lemma NothingThere(path: Path, replace: bool, src: Source)
    requires path != []
    ensures var e := EffectOfPath(path, replace, src); e.otherwise == Onto(map[], e)
  {
    var e := EffectOfPath(path, replace, src);
    OneApplies(map[], path[0], e.kids[path[0]]);
  }

  lemma {:induction false} AssignActs(m: Kids, k: string, src: Source)
    ensures Assign(m, k, false, src) == m[k := Apply(At(m, k), EffectOf(src))]
    decreases src, 5
  {
    if src.Dict? && k in m && m[k].Node? {
      UpdateActs(m[k].kids, src.items);
      assert Apply(At(m, k), EffectOf(src)) == Onto(m[k].kids, EffectOfAll(src.items));
    }
  }

  lemma {:induction false} ItemActs(m: Kids, key: string, src: Source)
    ensures Node(SetItem(m, key, src)) == Onto(m, EffectOfItem(key, src))
    decreases src, 7
  {
    var k := ParseKey(key);
    if |k.path| > 1 {
      PathActs(m, k.path, k.replace, src);
    } else if k.replace {
      OneApplies(m, k.path[0], Put(Fresh(src)));
    } else {
      OneApplies(m, k.path[0], EffectOf(src));
      AssignActs(m, k.path[0], src);
    }
  }

  /** Loading a raw source into any configuration is applying its effect. */
  lemma {:induction false} UpdateActs(m: Kids, items: seq<Pair>)
    ensures Node(Update(m, items)) == Onto(m, EffectOfAll(items))
    decreases items, 3
  {
    if items == [] {
      assert Onto(m, EffectOfAll(items)).kids == m;
    } else {
      var first := EffectOfItem(items[0].key, items[0].value);
      ItemActs(m, items[0].key, items[0].value);
      UpdateActs(SetItem(m, items[0].key, items[0].value), items[1..]);
      ComposeApplies(Some(Node(m)), first, EffectOfAll(items[1..]));
    }
  }

  // ---------- Effects are canonical ----------

  ghost predicate ActAlike(d: Effect, e: Effect) {
    forall place :: Apply(place, d) == Apply(place, e)
  }

  lemma {:induction false} FreshKey(keys: set<string>) returns (k: string)
    ensures k !in keys
  {
    var n := LongestIn(keys) + 1;
    k := seq(n, _ => 'x');
  }

  ghost function LongestIn(keys: set<string>): (n: nat)
    ensures forall k :: k in keys ==> |k| <= n
  {
    if keys == {} then 0
    else
      var k :| k in keys;
      var n := LongestIn(keys - {k});
      if |k| > n then |k| else n
  }

  lemma PutIsNotWithin(t: Tree, e: Effect)
    requires e.Within?
    ensures !ActAlike(Put(t), e) && !ActAlike(e, Put(t))
  {
    var k := FreshKey(if t.Node? then t.kids.Keys else {});
    var place := Some(Node(map[k := Node(map[])]));
    assert k in Apply(place, e).kids;
    assert Apply(place, Put(t)) != Apply(place, e);
  }

  /** Two effects are the same exactly if they act the same wherever they are applied. */
  lemma {:induction false} Canonical(d: Effect, e: Effect)
    ensures ActAlike(d, e) <==> d == e
    decreases d
  {
    if ActAlike(d, e) {
      assert Apply(None, d) == Apply(None, e);
      if d.Put? && e.Within? {
        PutIsNotWithin(d.tree, e);
      } else if d.Within? && e.Put? {
        PutIsNotWithin(e.tree, d);
      } else if d.Within? {
        assert Onto(map[], d).kids.Keys == d.kids.Keys && Onto(map[], e).kids.Keys == e.kids.Keys;
        forall k | k in d.kids ensures d.kids[k] == e.kids[k] {
          EntriesActAlike(d, e, k);
          Canonical(d.kids[k], e.kids[k]);
        }
        assert d.kids == e.kids;
      }
    }
  }

  lemma EntriesActAlike(d: Effect, e: Effect, k: string)
    requires d.Within? && e.Within? && ActAlike(d, e) && k in d.kids && k in e.kids
    ensures ActAlike(d.kids[k], e.kids[k])
  {
    forall place ensures Apply(place, d.kids[k]) == Apply(place, e.kids[k]) {
      var m: Kids := if place.None? then map[] else map[k := place.value];
      assert At(m, k) == place;
      assert Onto(m, d).kids[k] == Onto(m, e).kids[k];
    }
  }

  lemma CanonicalOnMappings(d: Effect, e: Effect)
    requires d.Within? && e.Within? && d.otherwise == e.otherwise
    ensures (forall m :: Onto(m, d) == Onto(m, e)) <==> d == e
  {
    if forall m :: Onto(m, d) == Onto(m, e) {
      forall place ensures Apply(place, d) == Apply(place, e) {
        if place.Some? && place.value.Node? {
          assert Onto(place.value.kids, d) == Onto(place.value.kids, e);
        }
      }
      Canonical(d, e);
    }
  }

  ghost predicate LoadsAsMerge(src: Source)
    requires src.Dict?
  {
    forall m: Kids :: Node(Update(m, src.items)) == Merge(Node(m), Fresh(src))
  }

  /** Loading a raw source acts as merging its normal form into every configuration exactly if
      the two have the same effect on every entry. */
  lemma LoadIsMergeExactly(src: Source)
    requires src.Dict?
    ensures LoadsAsMerge(src) <==> EffectOfAll(src.items).kids == Merging(Fresh(src)).kids
  {
    hide Onto;
    var d := Within(Node(map[]), EffectOfAll(src.items).kids);
    var e := Within(Node(map[]), Merging(Fresh(src)).kids);
    forall m: Kids
      ensures Node(Update(m, src.items)) == Onto(m, d) && Merge(Node(m), Fresh(src)) == Onto(m, e)
    {
      LoadAndMerge(m, src);
    }
    CanonicalOnMappings(d, e);
    if LoadsAsMerge(src) {
      forall m ensures Onto(m, d) == Onto(m, e) {
        assert Node(Update(m, src.items)) == Merge(Node(m), Fresh(src));
      }
    }
  }

  lemma LoadAndMerge(m: Kids, src: Source)
    requires src.Dict?
    ensures Node(Update(m, src.items)) == Onto(m, Within(Node(map[]), EffectOfAll(src.items).kids))
    ensures Merge(Node(m), Fresh(src)) == Onto(m, Within(Node(map[]), Merging(Fresh(src)).kids))
  {
    UpdateActs(m, src.items);
    MergingMerges(Node(m), Fresh(src));
  }

  // ---------- Ordinary sources ----------

  /** Nested dicts with undotted keys, none twice and none with `!`: what most files hold. */
  ghost predicate Ordinary(src: Source)
    decreases src, 1
  {
    src.Dict? ==> OrdinaryItems(src.items)
  }

  ghost predicate OrdinaryItems(items: seq<Pair>)
    decreases items, 0
  {
    items == [] ||
    var key := items[0].key;
    && ParseKey(key) == Key([key], false) && key !in Entries(items[1..])
    && Ordinary(items[0].value) && OrdinaryItems(items[1..])
  }

  function Entries(items: seq<Pair>): Kids
    decreases |items|
  {
    if items == [] then map[] else Entries(items[1..])[items[0].key := Fresh(items[0].value)]
  }

  lemma {:induction false} InitAdds(m: Kids, items: seq<Pair>)
    requires OrdinaryItems(items) && m.Keys !! Entries(items).Keys
    ensures Init(m, items) == m + Entries(items)
    decreases |items|
  {
    if items == [] {
      assert m + map[] == m;
    } else {
      hide Fresh;
      var key, u := items[0].key, Fresh(items[0].value);
      assert SetTree(m, key, u) == m[key := u];
      InitAdds(m[key := u], items[1..]);
      assert m[key := u] + Entries(items[1..]) == m + Entries(items);
    }
  }

  lemma ComposeOne(k: string, d: Effect, e: Effect)
    requires e.Within? && k !in e.kids
    ensures Compose(One(k, d), e).kids == e.kids[k := d]
  {
  }

  lemma {:induction false} EntriesMerge(items: seq<Pair>)
    requires OrdinaryItems(items)
    ensures EffectOfAll(items).kids == map k | k in Entries(items) :: Merging(Entries(items)[k])
    decreases items, 0
  {
    hide LoadsAsMerge, ParseKey, Fresh;
    if items != [] {
      OrdinaryMerges(items[0].value);
      EntriesMerge(items[1..]);
      var first := EffectOfItem(items[0].key, items[0].value);
      assert first == One(items[0].key, Merging(Fresh(items[0].value)));
      ComposeOne(items[0].key, Merging(Fresh(items[0].value)), EffectOfAll(items[1..]));
    }
  }

  /** Loading an ordinary source is merging its normal form. */
  lemma {:induction false} OrdinaryMerges(src: Source)
    requires Ordinary(src)
    ensures EffectOf(src) == Merging(Fresh(src))
    ensures src.Dict? ==> LoadsAsMerge(src)
    decreases src, 1
  {
    hide LoadsAsMerge, Init;
    if src.Dict? {
      assert map[] + Entries(src.items) == Entries(src.items);
      InitAdds(map[], src.items);
      EntriesMerge(src.items);
      assert Fresh(src) == Node(Entries(src.items));
      LoadIsMergeExactly(src);
    }
  }

  // ---------- What a load can see ----------

  /** What the effect leaves at a path depends on nothing but what was there: on the way, it
      makes of a missing mapping what it makes of an empty one. */
  ghost predicate Local(e: Effect, q: Path)
    requires e.Within?
    decreases |q|
  {
    |q| <= 1 || q[0] !in e.kids || e.kids[q[0]].Put? ||
    (var d := e.kids[q[0]];
     Local(d, q[1..]) && Lookup(d.otherwise, q[1..]) == Lookup(Onto(map[], d), q[1..]))
  }

  ghost function LookupAt(place: Option<Tree>, q: Path): Option<Tree> {
    match place case None => None case Some(t) => Lookup(t, q)
  }

  lemma ReadBelow(m: Kids, e: Effect, q: Path)
    requires e.Within? && q != []
    ensures Lookup(Node(m), q) == LookupAt(At(m, q[0]), q[1..])
    ensures Lookup(Onto(m, e), q) == if q[0] in e.kids then Lookup(Apply(At(m, q[0]), e.kids[q[0]]), q[1..])
                                     else LookupAt(At(m, q[0]), q[1..])
  {
  }

  lemma {:induction false} LocalReads(m: Kids, n: Kids, e: Effect, q: Path)
    requires e.Within? && Local(e, q) && Lookup(Node(m), q) == Lookup(Node(n), q)
    ensures Lookup(Onto(m, e), q) == Lookup(Onto(n, e), q)
    decreases |q|, 0
  {
    if q == [] { return; }
    var k, rest := q[0], q[1..];
    ReadBelow(m, e, q);
    ReadBelow(n, e, q);
    if k in e.kids && e.kids[k].Within? {
      if |q| == 1 {
        assert Lookup(Node(m), q) == At(m, k) && Lookup(Node(n), q) == At(n, k);
      } else {
        PlaceReads(At(m, k), At(n, k), e.kids[k], rest);
      }
    }
  }

  lemma {:induction false} PlaceReads(a: Option<Tree>, b: Option<Tree>, d: Effect, q: Path)
    requires d.Within? && Local(d, q) && q != [] && Lookup(d.otherwise, q) == Lookup(Onto(map[], d), q)
    requires LookupAt(a, q) == LookupAt(b, q)
    ensures Lookup(Apply(a, d), q) == Lookup(Apply(b, d), q)
    decreases |q|, 1
  {
    var m := if a.Some? && a.value.Node? then a.value.kids else map[];
    var n := if b.Some? && b.value.Node? then b.value.kids else map[];
    LocalReads(m, n, d, q);
  }

  /** Where the effect is not local, an override elsewhere shows. */
  lemma {:induction false} Interference(e: Effect, q: Path, x: Scalar) returns (m: Kids, p: Path)
    requires e.Within? && !Local(e, q)
    ensures p != [] && Incomparable(p, q)
    ensures Lookup(Onto(SetPath(m, p, false, Plain(x)), e), q) != Lookup(Onto(m, e), q)
    decreases |q|
  {
    var k, rest := q[0], q[1..];
    var d := e.kids[k];
    if !Local(d, rest) {
      var m1, p1 := Interference(d, rest, x);
      m, p := map[k := Node(m1)], [k] + p1;
      var after := SetPath(m1, p1, false, Plain(x));
      WriteBelow(m, k, p1, x);
      ReadBelow(m, e, q);
      ReadBelow(map[k := Node(after)], e, q);
    } else {
      var z := FreshKey({rest[0]});
      m, p := map[], [k] + [z];
      WriteBelow(m, k, [z], x);
      ReadBelow(m, e, q);
      ReadBelow(map[k := Node(map[z := Leaf(x)])], e, q);
      LocalReads(map[z := Leaf(x)], map[], d, rest);
    }
  }

  lemma WriteBelow(m: Kids, k: string, p: Path, x: Scalar)
    requires m.Keys <= {k} && p != []
    ensures SetPath(m, [k] + p, false, Plain(x)) == map[k := Node(SetPath(Child(m, k), p, false, Plain(x)))]
    ensures |p| == 1 ==> SetPath(map[], p, false, Plain(x)) == map[p[0] := Leaf(x)]
  {
    assert ([k] + p)[1..] == p;
    assert SetPath(m, [k] + p, false, Plain(x)) == m[k := Node(SetPath(Child(m, k), p, false, Plain(x)))];
    assert |p| == 1 ==> SetPath(map[], p, false, Plain(x)) == map[p[0] := Leaf(x)];
  }

  /** An override at one path is invisible at another after a load, whatever the
      configuration, exactly if the load is local at the other path. */
  lemma OverridesShowExactly(items: seq<Pair>, q: Path, x: Scalar)
    requires q != []
    ensures Local(EffectOfAll(items), q) <==>
            forall m: Kids, p: Path :: p != [] && Incomparable(p, q) ==>
              Lookup(Node(Update(SetPath(m, p, false, Plain(x)), items)), q) == Lookup(Node(Update(m, items)), q)
  {
    var e := EffectOfAll(items);
    if Local(e, q) {
      forall m: Kids, p: Path | p != [] && Incomparable(p, q)
        ensures Lookup(Node(Update(SetPath(m, p, false, Plain(x)), items)), q) == Lookup(Node(Update(m, items)), q)
      {
        SetPathWrites(m, p, false, Plain(x), q);
        UpdateActs(m, items);
        UpdateActs(SetPath(m, p, false, Plain(x)), items);
        LocalReads(SetPath(m, p, false, Plain(x)), m, e, q);
      }
    } else {
      var m, p := Interference(e, q, x);
      UpdateActs(m, items);
      UpdateActs(SetPath(m, p, false, Plain(x)), items);
    }
  }

  lemma {:induction false} MergingIsLocal(u: Tree, q: Path)
    requires u.Node?
    ensures Local(Merging(u), q)
    decreases |q|
  {
    if |q| > 1 && q[0] in u.kids && u.kids[q[0]].Node? {
      var d := u.kids[q[0]];
      MergingIsLocal(d, q[1..]);
      MergingMerges(Node(map[]), d);
      MergeEmpty(d);
    }
  }

  /** A load that acts as merging, such as an ordinary one, is local everywhere. */
  lemma MergesAreLocal(src: Source, q: Path)
    requires src.Dict? && LoadsAsMerge(src)
    ensures Local(EffectOfAll(src.items), q)
  {
    LoadIsMergeExactly(src);
    MergingIsLocal(Fresh(src), q);
  }
}
