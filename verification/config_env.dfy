/** `Config.update`: every load is followed by the environment overrides declared so far. */
module ConfigEnv {
  import opened Wrappers
  import opened ConfigSpec
  import opened ConfigMerge
  import opened ConfigWrite
  import opened ConfigEffect

  /** An entry of `_env`: a configuration key and the name of an environment variable. */
  datatype Binding = Binding(key: string, name: Scalar)

  type Environ = map<Scalar, Scalar>

  datatype Config = Config(val: Kids, env: seq<Binding>)

  predicate StartsWith(s: string, prefix: string) {
    prefix <= s
  }

  // ---------- The source ----------

  /** Assignment to a dict that keeps its order. */
  function Bind(env: seq<Binding>, key: string, name: Scalar): seq<Binding> {
    if env == [] then [Binding(key, name)]
    else if env[0].key == key then [Binding(key, name)] + env[1..]
    else [env[0]] + Bind(env[1..], key, name)
  }

  /** `flater` */
  function Flatten(env: seq<Binding>, items: seq<Pair>, prefix: string): seq<Binding>
    decreases items
  {
    if items == [] then env
    else
      var key := if prefix != "" then prefix + "." + items[0].key else items[0].key;
      var env' := match items[0].value
                  case Plain(name) => Bind(env, key, name)
                  case Dict(inner) => Flatten(env, inner, key);
      Flatten(env', items[1..], prefix)
  }

  /** The declarations under the key `env`. */
  function FromEnvKey(env: seq<Binding>, items: seq<Pair>): seq<Binding>
    decreases |items|
  {
    if items == [] then env
    else
      FromEnvKey(if items[0].key == "env" && items[0].value.Dict?
                 then Flatten(env, items[0].value.items, "") else env, items[1..])
  }

  /** The declarations under keys that start with `env.`. */
  function FromDottedKeys(env: seq<Binding>, items: seq<Pair>): seq<Binding>
    decreases |items|
  {
    if items == [] then env
    else
      FromDottedKeys(if StartsWith(items[0].key, "env.")
                     then match items[0].value
                          case Plain(name) => Bind(env, items[0].key[4..], name)
                          case Dict(inner) => Flatten(env, inner, items[0].key[4..])
                     else env, items[1..])
  }

  function FromEnv(env: seq<Binding>, items: seq<Pair>): seq<Binding> {
    FromDottedKeys(FromEnvKey(env, items), items)
  }

  /** What `_update_logging` and `_from_env` leave in the data. */
  function Settings(items: seq<Pair>): seq<Pair> {
    if items == [] then []
    else
      (if items[0].key == "env" || StartsWith(items[0].key, "env.") || StartsWith(items[0].key, "logging")
       then [] else [items[0]]) + Settings(items[1..])
  }

  function Unlogged(items: seq<Pair>): seq<Pair> {
    if items == [] then []
    else (if StartsWith(items[0].key, "logging") then [] else [items[0]]) + Unlogged(items[1..])
  }

  /** The variable is set and its value goes into the tree, not to the logging settings. */
  predicate Active(b: Binding, environ: Environ) {
    b.name in environ && !StartsWith(b.key, "logging")
  }

  /** The overrides: one plain write for each active binding. */
  function Overrides(env: seq<Binding>, environ: Environ): seq<Pair> {
    if env == [] then []
    else
      (if Active(env[0], environ) then [Pair(env[0].key, Plain(environ[env[0].name]))] else [])
      + Overrides(env[1..], environ)
  }

  /** A plain value under `env` makes `_from_env` raise before anything is changed. */
  predicate Raises(items: seq<Pair>) {
    exists i :: 0 <= i < |items| && items[i].key == "env" && items[i].value.Plain?
  }

  /** `update`, whether it returns or raises halfway. */
  function Load(m: Kids, items: seq<Pair>): Kids {
    if SpelledItems(items) then Update(m, items) else Broken(m, items)
  }

  /** `_update`: when loading the data raises, the overrides are not applied. */
  function UpdateConfig(c: Config, environ: Environ, items: seq<Pair>): Config {
    if Raises(items) then c
    else
      var env, settings := FromEnv(c.env, Unlogged(items)), Settings(items);
      if SpelledItems(settings) then Config(Load(Update(c.val, settings), Overrides(env, environ)), env)
      else Config(Broken(c.val, settings), env)
  }

  /** `_update` does not raise. */
  predicate Returns(c: Config, environ: Environ, items: seq<Pair>) {
    && !Raises(items) && SpelledItems(Settings(items))
    && SpelledItems(Overrides(FromEnv(c.env, Unlogged(items)), environ))
  }

  /** A sequence of `update` calls. */
  function Updates(c: Config, environ: Environ, loads: seq<seq<Pair>>): Config
    decreases |loads|
  {
    if loads == [] then c else Updates(UpdateConfig(c, environ, loads[0]), environ, loads[1..])
  }

  /** The same loads without any override. */
  function PlainUpdates(m: Kids, loads: seq<seq<Pair>>): Kids
    decreases |loads|
  {
    if loads == [] then m
    else PlainUpdates(if Raises(loads[0]) then m else Load(m, Settings(loads[0])), loads[1..])
  }

  // ---------- What is declared stays declared ----------

  ghost predicate Declares(env: seq<Binding>, key: string) {
    exists b :: b in env && b.key == key
  }

  ghost predicate DistinctKeys(env: seq<Binding>) {
    forall i, j :: 0 <= i < j < |env| ==> env[i].key != env[j].key
  }

  ghost predicate Extends(before: seq<Binding>, after: seq<Binding>) {
    (DistinctKeys(before) ==> DistinctKeys(after)) && forall key :: Declares(before, key) ==> Declares(after, key)
  }

  lemma {:induction false} BindExtends(env: seq<Binding>, key: string, name: Scalar)
    ensures Extends(env, Bind(env, key, name))
    ensures forall k :: Declares(Bind(env, key, name), k) <==> Declares(env, k) || k == key
  {
    var after := Bind(env, key, name);
    if env == [] {
      assert after[0].key == key;
    } else if env[0].key == key {
      assert after[0].key == key;
      forall k ensures Declares(after, k) <==> Declares(env, k) {
        assert env == [env[0]] + env[1..];
      }
    } else {
      var tail := Bind(env[1..], key, name);
      BindExtends(env[1..], key, name);
      assert env == [env[0]] + env[1..] && after[1..] == tail;
      forall k ensures Declares(after, k) <==> Declares(env, k) || k == key {
        assert Declares(after, k) <==> env[0].key == k || Declares(tail, k);
        assert Declares(env, k) <==> env[0].key == k || Declares(env[1..], k);
      }
      if DistinctKeys(env) {
        assert forall b :: b in env[1..] ==> b.key != env[0].key;
        forall j | 0 <= j < |tail| ensures tail[j].key != env[0].key {
          assert Declares(tail, tail[j].key);
        }
        assert DistinctKeys(after);
      }
    }
  }

  lemma {:induction false} FlattenExtends(env: seq<Binding>, items: seq<Pair>, prefix: string)
    ensures Extends(env, Flatten(env, items, prefix))
    decreases items
  {
    if items != [] {
      var key := if prefix != "" then prefix + "." + items[0].key else items[0].key;
      match items[0].value
      case Plain(name) =>
        BindExtends(env, key, name);
        FlattenExtends(Bind(env, key, name), items[1..], prefix);
      case Dict(inner) =>
        FlattenExtends(env, inner, key);
        FlattenExtends(Flatten(env, inner, key), items[1..], prefix);
    }
  }

  lemma {:induction false} FromEnvKeyExtends(env: seq<Binding>, items: seq<Pair>)
    ensures Extends(env, FromEnvKey(env, items))
    decreases |items|
  {
    if items != [] {
      if items[0].key == "env" && items[0].value.Dict? {
        FlattenExtends(env, items[0].value.items, "");
        FromEnvKeyExtends(Flatten(env, items[0].value.items, ""), items[1..]);
      } else {
        FromEnvKeyExtends(env, items[1..]);
      }
    }
  }

  lemma {:induction false} FromDottedKeysExtends(env: seq<Binding>, items: seq<Pair>)
    ensures Extends(env, FromDottedKeys(env, items))
    decreases |items|
  {
    if items != [] {
      if StartsWith(items[0].key, "env.") {
        match items[0].value
        case Plain(name) =>
          BindExtends(env, items[0].key[4..], name);
          FromDottedKeysExtends(Bind(env, items[0].key[4..], name), items[1..]);
        case Dict(inner) =>
          FlattenExtends(env, inner, items[0].key[4..]);
          FromDottedKeysExtends(Flatten(env, inner, items[0].key[4..]), items[1..]);
      } else {
        FromDottedKeysExtends(env, items[1..]);
      }
    }
  }

  lemma UpdateExtends(c: Config, environ: Environ, items: seq<Pair>)
    ensures Extends(c.env, UpdateConfig(c, environ, items).env)
  {
    FromEnvKeyExtends(c.env, Unlogged(items));
    FromDottedKeysExtends(FromEnvKey(c.env, Unlogged(items)), Unlogged(items));
  }

  lemma {:induction false} UpdatesExtend(c: Config, environ: Environ, loads: seq<seq<Pair>>)
    ensures Extends(c.env, Updates(c, environ, loads).env)
    decreases |loads|
  {
    if loads != [] {
      UpdateExtends(c, environ, loads[0]);
      UpdatesExtend(UpdateConfig(c, environ, loads[0]), environ, loads[1..]);
    }
  }

  // ---------- The environment wins ----------

  function PathOf(b: Binding): (p: Path)
    ensures p != []
  {
    ParseKey(b.key).path
  }

  /** Every override applied is of a path incomparable with this one. */
  ghost predicate Apart(env: seq<Binding>, environ: Environ, q: Path) {
    forall b :: b in env && Active(b, environ) ==> Incomparable(PathOf(b), q)
  }

  /** What one plain write leaves at a comparable path: its value there, nothing below it and
      a mapping above it. */
  ghost predicate Written(r: Option<Tree>, p: Path, x: Scalar, q: Path) {
    if p == q then r == Some(Leaf(x))
    else if p <= q then r == None
    else r.Some? && r.value.Node?
  }

  lemma {:induction false} SetPathComparable(m: Kids, path: Path, replace: bool, x: Scalar, q: Path)
    requires path != [] && !Incomparable(path, q)
    ensures Written(Lookup(Node(SetPath(m, path, replace, Plain(x))), q), path, x, q)
    decreases |path|
  {
    var t := SetPath(m, path, replace, Plain(x));
    if q != [] {
      assert path == [path[0]] + path[1..] && q == [q[0]] + q[1..];
      if |path| == 1 {
        assert Assign(m, path[0], false, Plain(x)) == m[path[0] := Leaf(x)];
        assert t == Assign(m, path[0], false, Plain(x));
      } else {
        SetPathComparable(Child(m, path[0]), path[1..], replace, x, q[1..]);
      }
    }
  }

  lemma SetItemWrites(m: Kids, key: string, x: Scalar, q: Path)
    ensures var p, r := ParseKey(key).path, Lookup(Node(SetItem(m, key, Plain(x))), q);
            if Incomparable(p, q) then r == Lookup(Node(m), q) else Written(r, p, x, q)
  {
    var k := ParseKey(key);
    assert SetItem(m, key, Plain(x)) == SetPath(m, k.path, k.replace, Plain(x));
    SetPathWrites(m, k.path, k.replace, Plain(x), q);
    if !Incomparable(k.path, q) { SetPathComparable(m, k.path, k.replace, x, q); }
  }

  lemma OverridesHead(m: Kids, env: seq<Binding>, environ: Environ)
    requires env != []
    ensures Update(m, Overrides(env, environ)) ==
            var b := env[0];
            Update(if Active(b, environ) then SetItem(m, b.key, Plain(environ[b.name])) else m,
                   Overrides(env[1..], environ))
  {
    var rest := Overrides(env[1..], environ);
    if Active(env[0], environ) {
      assert Overrides(env, environ)[1..] == rest;
    } else {
      assert Overrides(env, environ) == rest;
    }
  }

  /** Overrides do not reach a path that none of them is comparable with. */
  lemma {:induction false} OverridesElsewhere(m: Kids, env: seq<Binding>, environ: Environ, q: Path)
    requires Apart(env, environ, q)
    ensures Lookup(Node(Update(m, Overrides(env, environ))), q) == Lookup(Node(m), q)
    decreases |env|
  {
    if env != [] {
      var b := env[0];
      OverridesHead(m, env, environ);
      if Active(b, environ) {
        SetItemWrites(m, b.key, environ[b.name], q);
        OverridesElsewhere(SetItem(m, b.key, Plain(environ[b.name])), env[1..], environ, q);
      } else {
        OverridesElsewhere(m, env[1..], environ, q);
      }
    }
  }

  /** The last override comparable with a path decides what is read there. */
  ghost predicate Decides(env: seq<Binding>, environ: Environ, j: nat, q: Path) {
    && j < |env| && Active(env[j], environ) && !Incomparable(PathOf(env[j]), q)
    && Apart(env[j + 1..], environ, q)
  }

  lemma {:induction false} OverridesDecide(m: Kids, env: seq<Binding>, environ: Environ, j: nat, q: Path)
    requires Decides(env, environ, j, q)
    ensures Written(Lookup(Node(Update(m, Overrides(env, environ))), q), PathOf(env[j]), environ[env[j].name], q)
    decreases |env|
  {
    hide SetItem, Update, Overrides, Lookup, Written, ParseKey;
    var b := env[0];
    OverridesHead(m, env, environ);
    if j == 0 {
      SetItemWrites(m, b.key, environ[b.name], q);
      OverridesElsewhere(SetItem(m, b.key, Plain(environ[b.name])), env[1..], environ, q);
    } else {
      assert env[1..][j..] == env[j + 1..];
      OverridesDecide(if Active(b, environ) then SetItem(m, b.key, Plain(environ[b.name])) else m,
                      env[1..], environ, j - 1, q);
    }
  }

  /** The last active binding whose path is comparable with that of an active one. */
  ghost function LastRival(env: seq<Binding>, environ: Environ, i: nat): (j: nat)
    requires i < |env| && Active(env[i], environ)
    ensures i <= j && Decides(env, environ, j, PathOf(env[i]))
    decreases |env|
  {
    var n := |env| - 1;
    if Active(env[n], environ) && !Incomparable(PathOf(env[n]), PathOf(env[i])) then
      assert env[n + 1..] == [];
      n
    else
      var j := LastRival(env[..n], environ, i);
      StillDecides(env, environ, j, PathOf(env[i]));
      j
  }

  lemma StillDecides(env: seq<Binding>, environ: Environ, j: nat, q: Path)
    requires env != [] && Decides(env[..|env| - 1], environ, j, q)
    requires Active(env[|env| - 1], environ) ==> Incomparable(PathOf(env[|env| - 1]), q)
    ensures Decides(env, environ, j, q)
  {
    hide PathOf;
    var n := |env| - 1;
    assert env[j + 1..] == env[..n][j + 1..] + [env[n]];
  }

  lemma ReadsAs(t: Tree, key: string)
    requires !ParseKey(key).replace
    ensures GetItem(t, key) == Walk(t, ParseKey(key).path)
  {
  }

  /** The last update that got as far as loading anything returned. */
  ghost predicate LastReturns(c: Config, environ: Environ, loads: seq<seq<Pair>>)
    decreases |loads|
  {
    loads != [] &&
    if forall items :: items in loads[1..] ==> Raises(items) then Returns(c, environ, loads[0])
    else LastReturns(UpdateConfig(c, environ, loads[0]), environ, loads[1..])
  }

  /** After any sequence of updates the last of which returned, whatever they contain and
      whatever else is declared, an active declared path reads as its variable exactly if the
      last active binding comparable with it, which may be itself, has the same path and the
      same value. */
  lemma {:induction false} EnvironmentWinsExactly(c: Config, environ: Environ, loads: seq<seq<Pair>>, i: nat)
    requires LastReturns(c, environ, loads)
    requires var env := Updates(c, environ, loads).env; i < |env| && Active(env[i], environ)
    ensures var after := Updates(c, environ, loads);
            var b, r := after.env[i], after.env[LastRival(after.env, environ, i)];
            Walk(Node(after.val), PathOf(b)) == Found(Leaf(environ[b.name])) <==>
            PathOf(r) == PathOf(b) && environ[r.name] == environ[b.name]
    decreases |loads|
  {
    var next := UpdateConfig(c, environ, loads[0]);
    if forall items :: items in loads[1..] ==> Raises(items) {
      AllRaise(next, environ, loads[1..]);
      var j, q := LastRival(next.env, environ, i), PathOf(next.env[i]);
      OverridesDecide(Update(c.val, Settings(loads[0])), next.env, environ, j, q);
      WalkFinds(Node(next.val), q);
    } else {
      EnvironmentWinsExactly(next, environ, loads[1..], i);
    }
  }

  lemma {:induction false} AllRaise(c: Config, environ: Environ, loads: seq<seq<Pair>>)
    requires forall items :: items in loads ==> Raises(items)
    ensures Updates(c, environ, loads) == c
    decreases |loads|
  {
    if loads != [] { AllRaise(c, environ, loads[1..]); }
  }

  lemma ItsOwnRival(env: seq<Binding>, environ: Environ, i: nat)
    requires i < |env| && Active(env[i], environ) && Apart(env[i + 1..], environ, PathOf(env[i]))
    ensures LastRival(env, environ, i) == i
  {
  }

  /** In particular it wins if no active binding after it is comparable with it: so do all of
      them, in any order, when no two are comparable. */
  lemma EnvironmentWins(c: Config, environ: Environ, loads: seq<seq<Pair>>, i: nat)
    requires LastReturns(c, environ, loads)
    requires var env := Updates(c, environ, loads).env;
             i < |env| && Active(env[i], environ) && Apart(env[i + 1..], environ, PathOf(env[i]))
    ensures var after := Updates(c, environ, loads);
            var b := after.env[i];
            && Walk(Node(after.val), PathOf(b)) == Found(Leaf(environ[b.name]))
            && (!ParseKey(b.key).replace ==> GetItem(Node(after.val), b.key) == Found(Leaf(environ[b.name])))
  {
    hide Updates, LastReturns, Active, Walk, Apart;
    var after := Updates(c, environ, loads);
    EnvironmentWinsExactly(c, environ, loads, i);
    ItsOwnRival(after.env, environ, i);
    if !ParseKey(after.env[i].key).replace { ReadsAs(Node(after.val), after.env[i].key); }
  }

  // ---------- Nothing else changes ----------

  /** Every update that got as far as loading anything returned, and every override applied is
      of a path incomparable with this one. */
  ghost predicate ApartThroughout(c: Config, environ: Environ, loads: seq<seq<Pair>>, q: Path)
    decreases |loads|
  {
    loads == [] ||
    var next := UpdateConfig(c, environ, loads[0]);
    && (Raises(loads[0]) || (Returns(c, environ, loads[0]) && Apart(next.env, environ, q)))
    && ApartThroughout(next, environ, loads[1..], q)
  }

  /** A path that no applied override is comparable with reads as it would without any,
      provided the loads are local there; see `OverridesShowExactly`. */
  lemma {:induction false} OverridesStayInPlace(c: Config, m: Kids, environ: Environ, loads: seq<seq<Pair>>, q: Path)
    requires forall items :: items in loads && !Raises(items) ==> Local(EffectOfAll(Settings(items)), q)
    requires ApartThroughout(c, environ, loads, q)
    requires Lookup(Node(c.val), q) == Lookup(Node(m), q)
    ensures Lookup(Node(Updates(c, environ, loads).val), q) == Lookup(Node(PlainUpdates(m, loads)), q)
    decreases |loads|
  {
    if loads != [] {
      var next := UpdateConfig(c, environ, loads[0]);
      if Raises(loads[0]) {
        OverridesStayInPlace(c, m, environ, loads[1..], q);
      } else {
        var settings := Settings(loads[0]);
        UpdateActs(c.val, settings);
        UpdateActs(m, settings);
        LocalReads(c.val, m, EffectOfAll(settings), q);
        OverridesElsewhere(Update(c.val, settings), next.env, environ, q);
        OverridesStayInPlace(next, Update(m, settings), environ, loads[1..], q);
      }
    }
  }
}
