/** Concrete loads for which the laws of overriding need their hypotheses. */
module ConfigWitnesses {
  import opened Wrappers
  import opened Text
  import opened ConfigSpec
  import opened ConfigMerge
  import opened ConfigWrite
  import opened ConfigEnv
  import opened ConfigDeclare

  // ---------- Declaring one variable ----------

  /** {env: {key: name}} */
  function Declaring(key: string, name: Scalar): seq<Pair> {
    [Pair("env", Dict([Pair(key, Plain(name))]))]
  }

  lemma DeclaringBinds(key: string, name: Scalar)
    ensures FromEnv([], Unlogged(Declaring(key, name))) == [Binding(key, name)]
    ensures !Raises(Declaring(key, name)) && Settings(Declaring(key, name)) == []
  {
    var items, inner, env := Declaring(key, name), [Pair(key, Plain(name))], [Binding(key, name)];
    assert items[1..] == [] && Unlogged(items) == items;
    assert inner[1..] == [] && Flatten([], inner, "") == env;
    assert !StartsWith("env", "env.") && FromDottedKeys(env, items) == env;
    assert FromEnvKey([], items) == env;
  }

  lemma OneOverride(key: string, name: Scalar, x: Scalar)
    requires !StartsWith(key, "logging")
    ensures Overrides([Binding(key, name)], map[name := x]) == [Pair(key, Plain(x))]
  {
    assert [Binding(key, name)][1..] == [];
  }

  /** The update that declares it also puts the override in place. */
  lemma DeclaringActs(key: string, name: Scalar, x: Scalar)
    requires Spelled(key) && !StartsWith(key, "logging")
    ensures UpdateConfig(Config(map[], []), map[name := x], Declaring(key, name)) ==
            Config(SetItem(map[], key, Plain(x)), [Binding(key, name)])
    ensures Returns(Config(map[], []), map[name := x], Declaring(key, name))
    ensures !Raises(Declaring(key, name)) && Settings(Declaring(key, name)) == []
  {
    hide FromEnv, Overrides, Unlogged, Settings, Declaring, Raises, Spelled, SetItem;
    DeclaringBinds(key, name);
    OneOverride(key, name, x);
    UpdateOne(map[], Pair(key, Plain(x)));
    assert Update(map[], []) == map[];
    assert SpelledItems([]) && SpelledItems([Pair(key, Plain(x))]);
  }

  // ---------- A load that fails loses the overrides ----------

  /** {x: y, a!.b: y} */
  function Failing(y: Scalar): seq<Pair> {
    [Pair("x", Plain(y)), Pair("a!.b", Plain(y))]
  }

  lemma FailingKeys()
    ensures ParseKey("x") == Key(["x"], false) && ParseKey("a!.b") == Key(["a!", "b"], false)
    ensures ParseKey("a!") == Key(["a"], true)
  {
    hide SplitOn;
    ParseJoin(["x"]);
    SplitOnName("a!", "b");
    assert "a!" + "." + "b" == "a!.b" && "a!.b"[2] == '.';
    StripNothing("a");
    assert "a!"[..1] == "a";
  }

  lemma FailingSpelled(y: Scalar)
    ensures Spelled("x") && !Spelled("a!.b") && !SpelledItems(Failing(y))
  {
    hide ParseKey;
    FailingKeys();
    assert ParseKey("a!.b").path[0] == "a!" && !Stored("a!");
    assert Failing(y)[1].key == "a!.b";
  }

  /** x is written, the mapping for a! is stored as a and not found, and that is all. */
  lemma FailingLeaves(x: Scalar, y: Scalar)
    ensures Broken(map["x" := Leaf(x)], Failing(y)) == map["x" := Leaf(y), "a" := Node(map[])]
  {
    hide ParseKey, Spelled;
    FailingKeys();
    FailingSpelled(y);
    var items, m: Kids := Failing(y), map["x" := Leaf(x)];
    assert items[1..] == [items[1]];
    assert SetItem(m, "x", Plain(y)) == map["x" := Leaf(y)];
    assert Broken(map["x" := Leaf(y)], items[1..]) == map["x" := Leaf(y), "a" := Node(map[])];
  }

  /** That the last load returns is needed: after {env: {x: name}}, the load {x: y, a!.b: y} has
      written x when it raises at a!.b, and the override of x is not applied again. */
  lemma FailingLoadLosesOverride(name: Scalar, x: Scalar, y: Scalar)
    requires x != y
    ensures var loads := [Declaring("x", name), Failing(y)];
            var after := Updates(Config(map[], []), map[name := x], loads);
            && after.env == [Binding("x", name)] && Active(after.env[0], map[name := x])
            && Walk(Node(after.val), PathOf(after.env[0])) == Found(Leaf(y)) != Found(Leaf(x))
  {
    hide UpdateConfig, Updates, Failing, Declaring, Walk, ParseKey, SetItem, Spelled, Returns;
    var first, c := Config(map[], []), Config(map["x" := Leaf(x)], [Binding("x", name)]);
    FailingKeys();
    FailingSpelled(y);
    FirstWrite(x);
    DeclaringActs("x", name, x);
    FailingSecond(c, map[name := x], x, y);
    TwoLoads(first, map[name := x], Declaring("x", name), Failing(y));
    ReadsX(map["x" := Leaf(y), "a" := Node(map[])], y);
  }

  lemma FirstWrite(x: Scalar)
    ensures SetItem(map[], "x", Plain(x)) == map["x" := Leaf(x)]
  {
    FailingKeys();
  }

  lemma ReadsX(m: Kids, y: Scalar)
    requires "x" in m && m["x"] == Leaf(y)
    ensures Walk(Node(m), ["x"]) == Found(Leaf(y))
  {
    assert ["x"][1..] == [];
  }

  lemma FailingSecond(c: Config, environ: Environ, x: Scalar, y: Scalar)
    requires c.val == map["x" := Leaf(x)]
    ensures UpdateConfig(c, environ, Failing(y)) == Config(map["x" := Leaf(y), "a" := Node(map[])], c.env)
  {
    assert "a!.b"[0] != "env."[0] && OnlySettings(Failing(y));
    OnlySettingsStay(c.env, Failing(y));
    FailingSpelled(y);
    FailingLeaves(x, y);
    hide Broken, Failing, Settings, Unlogged, FromEnvKey, FromDottedKeys, Raises, SpelledItems;
  }

  lemma TwoLoads(c: Config, environ: Environ, first: seq<Pair>, second: seq<Pair>)
    ensures Updates(c, environ, [first, second]) == UpdateConfig(UpdateConfig(c, environ, first), environ, second)
  {
    hide UpdateConfig;
    assert [first, second][1..] == [second] && [second][1..] == [];
    assert Updates(UpdateConfig(c, environ, first), environ, [second]) ==
           UpdateConfig(UpdateConfig(c, environ, first), environ, second);
  }

  // ---------- Loads that contradict themselves ----------

  /** {c!: {q: x}} */
  function Replacing(x: Scalar): Source {
    Dict([Pair("c!", Dict([Pair("q", Plain(x))]))])
  }

  /** {b.c: {p: x}, b: {c!: {q: x}}} */
  function Contradictory(x: Scalar): Source {
    Dict([Pair("b.c", Dict([Pair("p", Plain(x))])), Pair("b", Replacing(x))])
  }

  lemma LookupStep(t: Tree, k: string, rest: Path)
    ensures Lookup(t, [k] + rest) == if t.Node? && k in t.kids then Lookup(t.kids[k], rest) else None
  {
    assert ([k] + rest)[1..] == rest;
  }

  lemma ParseSamples()
    ensures ParseKey("b") == Key(["b"], false) && ParseKey("p") == Key(["p"], false)
    ensures ParseKey("q") == Key(["q"], false) && ParseKey("a") == Key(["a"], false)
    ensures ParseKey("b.c") == Key(["b", "c"], false)
    ensures ParseKey("c!") == Key(["c"], true)
  {
    ParseJoin(["a"]); ParseJoin(["b"]); ParseJoin(["p"]); ParseJoin(["q"]);
    ParseJoin(["b", "c"]);
    assert ["b", "c"][1..] == ["c"];
    assert Join(["b", "c"]) == "b.c";
    StripNothing("c");
    assert "c!"[..1] == "c";
  }

  lemma FreshSamples(x: Scalar, k: string)
    requires k == "p" || k == "q"
    ensures Fresh(Dict([Pair(k, Plain(x))])) == Node(map[k := Leaf(x)])
    ensures Fresh(Replacing(x)) == Node(map["c" := Node(map["q" := Leaf(x)])])
  {
    ParseSamples();
    InitOne(map[], Pair(k, Plain(x)));
    InitOne(map[], Pair("q", Plain(x)));
    InitOne(map[], Pair("c!", Dict([Pair("q", Plain(x))])));
  }

  /** Into nothing: both mappings of b.c are normalised first, and merged. */
  lemma ContradictoryFresh(x: Scalar)
    ensures Lookup(Fresh(Contradictory(x)), ["b", "c", "p"]) == Some(Leaf(x))
  {
    hide ParseKey, PathTree, Nest, Merge;
    ParseSamples();
    FreshSamples(x, "p");
    var items := Contradictory(x).items;
    var bc := Node(map["p" := Leaf(x)]);
    var c := Node(map["c" := bc]);
    var r := Fresh(Replacing(x));
    PathTreeIsMerge(map[], ["b", "c"], bc);
    NestTwo("b", "c", bc);
    MergeEmpty(Node(map["b" := c]));
    assert SetTree(map[], "b.c", bc) == map["b" := c];
    assert items[1..] == [items[1]];
    InitOne(map["b" := c], items[1]);
    LookupStep(Fresh(Contradictory(x)), "b", ["c", "p"]);
    MergedKeepsP(bc, r);
  }

  lemma MergedKeepsP(bc: Tree, r: Tree)
    requires bc.Node? && "p" in bc.kids && bc.kids["p"].Leaf?
    requires r.Node? && r.kids.Keys == {"c"} && r.kids["c"].Node? && "p" !in r.kids["c"].kids
    ensures Lookup(Merge(Node(map["c" := bc]), r), ["c", "p"]) == Some(bc.kids["p"])
  {
    var c := Node(map["c" := bc]);
    LookupMerge(c, r, ["c", "p"]);
    LookupStep(c, "c", ["p"]);
    LookupStep(bc, "p", []);
    LookupStep(r, "c", ["p"]);
    LookupStep(r.kids["c"], "p", []);
    assert ["c", "p"][1..] == ["p"] && ["p"][1..] == [];
  }

  lemma NestTwo(a: string, b: string, t: Tree)
    ensures Nest([a, b], t) == Node(map[a := Node(map[b := t])])
  {
    assert [a, b][1..] == [b] && [b][1..] == [];
    assert Nest([b], t) == Node(map[b := Nest([], t)]);
  }

  /** Into a mapping: the second mapping is written key by key, and its c! replaces. */
  lemma ContradictoryUpdate(m: Kids, x: Scalar)
    requires "b" !in m
    ensures Lookup(Node(Update(m, Contradictory(x).items)), ["b", "c", "p"]) == None
  {
    hide ParseKey, Merge;
    ParseSamples();
    FreshSamples(x, "p");
    FreshSamples(x, "q");
    var items := Contradictory(x).items;
    var bc := Node(map["p" := Leaf(x)]);
    var m1 := m["b" := Node(map["c" := bc])];
    assert Child(m, "b") == map[] && ["b", "c"][1..] == ["c"];
    assert SetPath(map[], ["c"], false, items[0].value) == map["c" := bc];
    assert SetItem(m, "b.c", items[0].value) == m1;
    assert items[1..] == [items[1]];
    UpdateOne(m1, items[1]);
    var c: Kids := map["c" := bc];
    UpdateOne(c, Replacing(x).items[0]);
    var m2 := Update(m, items);
    assert m2 == m1["b" := Node(c["c" := Node(map["q" := Leaf(x)])])];
    LookupStep(Node(m2), "b", ["c", "p"]);
    LookupStep(m2["b"], "c", ["p"]);
    LookupStep(m2["b"].kids["c"], "p", []);
  }

  /** Into a tree that holds an override at a.z, and into one that does not. */
  lemma ContradictoryReads(x: Scalar)
    ensures var load := [Pair("a", Contradictory(x))];
            var q := ["a", "b", "c", "p"];
            && Lookup(Node(Update(map[], load)), q) == Some(Leaf(x))
            && Lookup(Node(Update(map["a" := Node(map["z" := Leaf(x)])], load)), q) == None
  {
    ParseSamples();
    var load := Pair("a", Contradictory(x));
    var z: Kids := map["z" := Leaf(x)];
    UpdateOne(map[], load);
    UpdateOne(map["a" := Node(z)], load);
    ContradictoryFresh(x);
    ContradictoryUpdate(z, x);
    var q := ["a", "b", "c", "p"];
    assert q == ["a"] + ["b", "c", "p"];
    LookupStep(Node(Update(map[], [load])), "a", ["b", "c", "p"]);
    LookupStep(Node(Update(map["a" := Node(z)], [load])), "a", ["b", "c", "p"]);
  }

  lemma ContradictorySpelled(x: Scalar)
    ensures SpelledItems([Pair("a", Contradictory(x))])
  {
    hide ParseKey;
    ParseSamples();
    ParseJoin(["c"]);
    assert Stored("a") && Stored("b") && Stored("c") && Stored("p") && Stored("q");
    SpelledOne("p", Plain(x));
    SpelledOne("q", Plain(x));
    SpelledOne("c!", Dict([Pair("q", Plain(x))]));
    assert SpelledSource(Contradictory(x)) by {
      assert Spelled("b.c") && Spelled("b") && SpelledSource(Replacing(x));
    }
    SpelledOne("a", Contradictory(x));
  }

  lemma SpelledOne(key: string, src: Source)
    requires Spelled(key) && SpelledSource(src)
    ensures SpelledItems([Pair(key, src)]) && SpelledSource(Dict([Pair(key, src)]))
  {
    hide Spelled;
  }

  lemma OverrideKey()
    ensures ParseKey("a.z") == Key(["a", "z"], false) && Spelled("a.z")
  {
    ParseJoin(["a", "z"]);
    ParseJoin(["a"]);
    ParseJoin(["z"]);
    assert ["a", "z"][1..] == ["z"] && Join(["a", "z"]) == "a.z";
  }

  lemma OverrideWrites(x: Scalar)
    ensures SetItem(map[], "a.z", Plain(x)) == map["a" := Node(map["z" := Leaf(x)])]
  {
    OverrideKey();
    hide ParseKey;
    assert ["a", "z"][1..] == ["z"] && Child(map[], "a") == map[];
    assert SetPath(map[], ["z"], false, Plain(x)) == map["z" := Leaf(x)];
  }

  lemma SecondUpdate(c: Config, environ: Environ, items: seq<Pair>)
    requires OnlySettings(items) && SpelledItems(items) && SpelledItems(Overrides(c.env, environ))
    ensures UpdateConfig(c, environ, items) ==
            Config(Update(Update(c.val, items), Overrides(c.env, environ)), c.env)
    ensures Returns(c, environ, items)
  {
    OnlySettingsStay(c.env, items);
    hide Unlogged, Settings, FromEnvKey, FromDottedKeys, Raises, Update, Overrides, SpelledItems, OnlySettings;
  }

  /** The two updates, one after the other. */
  lemma TwoUpdates(name: Scalar, x: Scalar, load: Pair)
    requires load.key == "a" && SpelledItems([load])
    ensures var loads, first, environ := [Declaring("a.z", name), [load]], Config(map[], []), map[name := x];
            var m: Kids, env := map["a" := Node(map["z" := Leaf(x)])], [Binding("a.z", name)];
            && Updates(first, environ, loads).val == Update(Update(m, [load]), Overrides(env, environ))
            && PlainUpdates(map[], loads) == Update(map[], [load])
            && forall q :: Apart(env, environ, q) ==> ApartThroughout(first, environ, loads, q)
  {
    var loads, first, environ := [Declaring("a.z", name), [load]], Config(map[], []), map[name := x];
    OverrideKey();
    OverrideWrites(x);
    DeclaringActs("a.z", name, x);
    OneOverride("a.z", name, x);
    var c := UpdateConfig(first, environ, loads[0]);
    SecondUpdate(c, environ, [load]);
    OnlySettingsStay(c.env, [load]);
    assert Update(map[], []) == map[] && SpelledItems([]);
    assert loads[1..] == [[load]] && [[load]][1..] == [];
    hide UpdateConfig, Update, Raises, Settings, Apart, Returns, Declaring, SpelledItems, Overrides;
    TwoLoads(first, environ, loads[0], [load]);
    assert PlainUpdates(map[], [[load]]) == Update(map[], [load]);
    assert PlainUpdates(map[], loads) == PlainUpdates(Update(map[], []), loads[1..]);
    forall q | Apart(c.env, environ, q) ensures ApartThroughout(first, environ, loads, q) {
      assert ApartThroughout(c, environ, [[load]], q);
    }
  }

  lemma OverrideApart(name: Scalar, environ: Environ)
    ensures Apart([Binding("a.z", name)], environ, ["a", "b", "c", "p"])
  {
    OverrideKey();
    assert ["a", "z"][1] != ["a", "b", "c", "p"][1];
  }

  /** Not every load is local.  Loading {env: {a.z: name}} and then
      {a: {b.c: {p: x}, b: {c!: {q: x}}}} leaves nothing at a.b.c.p, where without the override
      at a.z there is x: an existing mapping is updated with the raw keys and a new one is
      normalised first. */
  lemma ContradictoryLoadsInterfere(name: Scalar, x: Scalar)
    ensures var loads := [Declaring("a.z", name), [Pair("a", Contradictory(x))]];
            var q := ["a", "b", "c", "p"];
            && ApartThroughout(Config(map[], []), map[name := x], loads, q)
            && Lookup(Node(PlainUpdates(map[], loads)), q) == Some(Leaf(x))
            && Lookup(Node(Updates(Config(map[], []), map[name := x], loads).val), q) == None
  {
    hide Updates, PlainUpdates, ApartThroughout, Declaring, Contradictory, Lookup, Update, Overrides, Apart;
    hide SpelledItems;
    var load, q := Pair("a", Contradictory(x)), ["a", "b", "c", "p"];
    var m: Kids, env := map["a" := Node(map["z" := Leaf(x)])], [Binding("a.z", name)];
    ContradictoryReads(x);
    ContradictorySpelled(x);
    TwoUpdates(name, x, load);
    OverrideApart(name, map[name := x]);
    OverridesElsewhere(Update(m, [load]), env, map[name := x], q);
  }
}
