/** Which paths the `env` sections of a configuration declare, and under which names. */
module ConfigDeclare {
  import opened Wrappers
  import opened ConfigSpec
  import opened ConfigWrite
  import opened ConfigEnv

  // ---------- Names ----------

  /** The variable a key is bound to. */
  ghost function NameOf(env: seq<Binding>, key: string): Option<Scalar> {
    if env == [] then None
    else if env[0].key == key then Some(env[0].name)
    else NameOf(env[1..], key)
  }

  /** Binding a key again replaces its name and touches no other. */
  lemma {:induction false} BindNames(env: seq<Binding>, key: string, name: Scalar, other: string)
    ensures NameOf(Bind(env, key, name), other) == if other == key then Some(name) else NameOf(env, other)
  {
    var after := Bind(env, key, name);
    if env == [] {
      assert after[1..] == [];
    } else if env[0].key == key {
      assert after[1..] == env[1..];
    } else {
      assert after[1..] == Bind(env[1..], key, name);
      BindNames(env[1..], key, name, other);
    }
  }

  /** A key bound again keeps its place; a new one comes last. */
  lemma {:induction false} BindKeepsPlaces(env: seq<Binding>, key: string, name: Scalar)
    ensures var after := Bind(env, key, name);
            && (forall i :: 0 <= i < |env| ==> i < |after| && after[i].key == env[i].key)
            && (Declares(env, key) ==> |after| == |env|)
            && (!Declares(env, key) ==> after == env + [Binding(key, name)])
  {
    if env != [] {
      assert env == [env[0]] + env[1..];
      if env[0].key == key {
        assert env[0] in env;
      } else {
        BindKeepsPlaces(env[1..], key, name);
        assert Declares(env, key) <==> Declares(env[1..], key);
      }
    }
  }

  /** A plain value of a nested `env` section: the keys on the way to it, and the name it is. */
  datatype Declaration = Declaration(path: Path, name: Scalar)

  ghost function Declarations(items: seq<Pair>, prefix: Path): seq<Declaration>
    decreases items
  {
    if items == [] then []
    else
      var path := prefix + [items[0].key];
      (match items[0].value
       case Plain(name) => [Declaration(path, name)]
       case Dict(inner) => Declarations(inner, path))
      + Declarations(items[1..], prefix)
  }

  /** The key a path is declared under: its segments joined by dots, leading empty ones left
      out. */
  ghost function KeyOf(path: Path): string
    decreases |path|
  {
    if path == [] then ""
    else
      var n := |path| - 1;
      var before := KeyOf(path[..n]);
      if before == "" then path[n] else before + "." + path[n]
  }

  ghost predicate NoEmpty(path: Path) {
    forall i :: 0 <= i < |path| ==> path[i] != ""
  }

  lemma {:induction false} JoinSnoc(path: Path, k: string)
    requires path != []
    ensures Join(path + [k]) == Join(path) + "." + k
    decreases |path|
  {
    if |path| == 1 {
      assert path + [k] == [path[0], k] && [path[0], k][1..] == [k];
    } else {
      assert (path + [k])[1..] == path[1..] + [k];
      JoinSnoc(path[1..], k);
      assert path[0] + "." + (Join(path[1..]) + "." + k) == path[0] + "." + Join(path[1..]) + "." + k;
    }
  }

  /** Without empty segments that is the dotted spelling of the path. */
  lemma {:induction false} KeyIsJoin(path: Path)
    requires path != [] && NoEmpty(path)
    ensures KeyOf(path) == Join(path) != ""
    decreases |path|
  {
    var n := |path| - 1;
    if n > 0 {
      KeyIsJoin(path[..n]);
      JoinSnoc(path[..n], path[n]);
      assert path == path[..n] + [path[n]];
    } else {
      assert path[..0] == [];
    }
  }

  /** The name in the last declaration of a key. */
  ghost function LastName(ds: seq<Declaration>, key: string): Option<Scalar> {
    if ds == [] then None
    else
      var later := LastName(ds[1..], key);
      if later.Some? then later
      else if KeyOf(ds[0].path) == key then Some(ds[0].name)
      else None
  }

  ghost function Or(x: Option<Scalar>, y: Option<Scalar>): Option<Scalar> {
    if x.Some? then x else y
  }

  lemma {:induction false} LastNameAppend(a: seq<Declaration>, b: seq<Declaration>, key: string)
    ensures LastName(a + b, key) == Or(LastName(b, key), LastName(a, key))
    decreases |a|
  {
    if a == [] {
      assert a + b == b;
    } else {
      assert (a + b)[1..] == a[1..] + b;
      LastNameAppend(a[1..], b, key);
    }
  }

  lemma KeyOfSnoc(prefix: Path, k: string)
    ensures KeyOf(prefix + [k]) == if KeyOf(prefix) == "" then k else KeyOf(prefix) + "." + k
  {
    assert (prefix + [k])[..|prefix|] == prefix;
  }

  /** A nested section declares exactly the keys that lead to its plain values, the last one
      of a key deciding on its name. */
  lemma {:induction false} FlattenNames(env: seq<Binding>, items: seq<Pair>, prefix: Path, key: string)
    ensures NameOf(Flatten(env, items, KeyOf(prefix)), key) ==
            Or(LastName(Declarations(items, prefix), key), NameOf(env, key))
    decreases items
  {
    if items != [] {
      var path, tail := prefix + [items[0].key], Declarations(items[1..], prefix);
      KeyOfSnoc(prefix, items[0].key);
      match items[0].value
      case Plain(name) =>
        var one := [Declaration(path, name)];
        assert one[1..] == [];
        BindNames(env, KeyOf(path), name, key);
        FlattenNames(Bind(env, KeyOf(path), name), items[1..], prefix, key);
        LastNameAppend(one, tail, key);
      case Dict(inner) =>
        FlattenNames(env, inner, path, key);
        FlattenNames(Flatten(env, inner, KeyOf(path)), items[1..], prefix, key);
        LastNameAppend(Declarations(inner, path), tail, key);
    }
  }

  /** What a load declares: under `env`, and under the keys that start with `env.`. */
  ghost function UnderEnv(items: seq<Pair>): seq<Declaration>
    decreases |items|
  {
    if items == [] then []
    else (if items[0].key == "env" && items[0].value.Dict? then Declarations(items[0].value.items, []) else [])
         + UnderEnv(items[1..])
  }

  ghost function UnderDotted(items: seq<Pair>): seq<Declaration>
    decreases |items|
  {
    if items == [] then []
    else (if StartsWith(items[0].key, "env.")
          then match items[0].value
               case Plain(name) => [Declaration([items[0].key[4..]], name)]
               case Dict(inner) => Declarations(inner, [items[0].key[4..]])
          else [])
         + UnderDotted(items[1..])
  }

  lemma KeyOfOne(k: string)
    ensures KeyOf([k]) == k && KeyOf([]) == ""
  {
    assert [k][..0] == [];
  }

  lemma {:induction false} FromEnvKeyNames(env: seq<Binding>, items: seq<Pair>, key: string)
    ensures NameOf(FromEnvKey(env, items), key) == Or(LastName(UnderEnv(items), key), NameOf(env, key))
    decreases |items|
  {
    if items != [] {
      var tail := UnderEnv(items[1..]);
      if items[0].key == "env" && items[0].value.Dict? {
        var inner := items[0].value.items;
        FlattenNames(env, inner, [], key);
        FromEnvKeyNames(Flatten(env, inner, ""), items[1..], key);
        LastNameAppend(Declarations(inner, []), tail, key);
      } else {
        FromEnvKeyNames(env, items[1..], key);
        assert [] + tail == tail;
      }
    }
  }

  lemma {:induction false} FromDottedNames(env: seq<Binding>, items: seq<Pair>, key: string)
    ensures NameOf(FromDottedKeys(env, items), key) == Or(LastName(UnderDotted(items), key), NameOf(env, key))
    decreases |items|
  {
    if items != [] {
      var tail := UnderDotted(items[1..]);
      if StartsWith(items[0].key, "env.") {
        var first := items[0].key[4..];
        KeyOfOne(first);
        match items[0].value
        case Plain(name) =>
          var one := [Declaration([first], name)];
          assert one[1..] == [];
          BindNames(env, first, name, key);
          FromDottedNames(Bind(env, first, name), items[1..], key);
          LastNameAppend(one, tail, key);
        case Dict(inner) =>
          FlattenNames(env, inner, [first], key);
          FromDottedNames(Flatten(env, inner, first), items[1..], key);
          LastNameAppend(Declarations(inner, [first]), tail, key);
      } else {
        FromDottedNames(env, items[1..], key);
        assert [] + tail == tail;
      }
    }
  }

  /** After a load, a key is bound to the name in its last declaration in that load, those
      under `env.` counting last, and otherwise as it was. */
  lemma DeclaredExactly(env: seq<Binding>, items: seq<Pair>, key: string)
    ensures NameOf(FromEnv(env, items), key) ==
            Or(LastName(UnderDotted(items), key), Or(LastName(UnderEnv(items), key), NameOf(env, key)))
  {
    FromEnvKeyNames(env, items, key);
    FromDottedNames(FromEnvKey(env, items), items, key);
  }

  // ---------- One path ----------

  lemma FlattenOne(env: seq<Binding>, k: string, value: Source, prefix: Path)
    ensures Flatten(env, [Pair(k, value)], KeyOf(prefix)) ==
            if value.Plain? then Bind(env, KeyOf(prefix + [k]), value.value)
            else Flatten(env, value.items, KeyOf(prefix + [k]))
  {
    hide Bind, KeyOf;
    KeyOfSnoc(prefix, k);
    assert [Pair(k, value)][1..] == [];
  }

  lemma {:induction false} FlattenNest(env: seq<Binding>, path: Path, name: Scalar, prefix: Path)
    requires path != []
    ensures Flatten(env, NestSource(path, Plain(name)).items, KeyOf(prefix)) == Bind(env, KeyOf(prefix + path), name)
    decreases |path|
  {
    hide Flatten, Bind, KeyOf;
    FlattenOne(env, path[0], NestSource(path[1..], Plain(name)), prefix);
    assert prefix + path == prefix + [path[0]] + path[1..];
    if |path| == 1 {
      assert prefix + path == prefix + [path[0]];
    } else {
      FlattenNest(env, path[1..], name, prefix + [path[0]]);
    }
  }

  /** {env: {k1: {... {kn: name}}}} */
  ghost function NestedForm(path: Path, name: Scalar): seq<Pair> {
    [Pair("env", NestSource(path, Plain(name)))]
  }

  /** {env.k1: {k2: {... {kn: name}}}} */
  ghost function DottedForm(path: Path, name: Scalar): seq<Pair>
    requires path != []
  {
    [Pair("env." + path[0], NestSource(path[1..], Plain(name)))]
  }

  /** Both spellings declare the path and nothing else. */
  lemma PathDeclares(env: seq<Binding>, path: Path, name: Scalar)
    requires path != [] && NoEmpty(path)
    ensures FromEnv(env, NestedForm(path, name)) == Bind(env, Join(path), name)
    ensures FromEnv(env, DottedForm(path, name)) == Bind(env, Join(path), name)
  {
    KeyIsJoin(path);
    NestedDeclares(env, path, name);
    DottedDeclares(env, path, name);
  }

  lemma NestedDeclares(env: seq<Binding>, path: Path, name: Scalar)
    requires path != []
    ensures FromEnv(env, NestedForm(path, name)) == Bind(env, KeyOf(path), name)
  {
    var items := NestedForm(path, name);
    assert items[1..] == [] && !StartsWith("env", "env.");
    FlattenNest(env, path, name, []);
    assert [] + path == path && KeyOf([]) == "";
    var after := Bind(env, KeyOf(path), name);
    assert FromEnvKey(after, []) == after && FromEnvKey(env, items) == after;
    assert FromDottedKeys(after, []) == after && FromDottedKeys(after, items) == after;
  }

  lemma DottedDeclares(env: seq<Binding>, path: Path, name: Scalar)
    requires path != []
    ensures FromEnv(env, DottedForm(path, name)) == Bind(env, KeyOf(path), name)
  {
    var items, key := DottedForm(path, name), "env." + path[0];
    assert items[1..] == [] && key[4..] == path[0] && key[..4] == "env.";
    assert FromEnvKey(env, []) == env && FromEnvKey(env, items) == env;
    KeyOfOne(path[0]);
    assert StartsWith(key, "env.");
    var after := Bind(env, KeyOf(path), name);
    assert FromDottedKeys(after, []) == after;
    if |path| == 1 {
      assert path == [path[0]];
    } else {
      FlattenNest(env, path[1..], name, [path[0]]);
      assert [path[0]] + path[1..] == path;
      assert FromDottedKeys(env, items) == FromDottedKeys(after, items[1..]);
    }
  }

  // ---------- Reading it back ----------

  /** Data without declarations. */
  predicate OnlySettings(items: seq<Pair>) {
    forall i :: 0 <= i < |items| ==>
      items[i].key != "env" && !StartsWith(items[i].key, "env.") && !StartsWith(items[i].key, "logging")
  }

  /** All of it is loaded, and nothing is declared. */
  lemma {:induction false} OnlySettingsStay(env: seq<Binding>, items: seq<Pair>)
    requires OnlySettings(items)
    ensures Unlogged(items) == items && Settings(items) == items && !Raises(items)
    ensures FromEnvKey(env, items) == env && FromDottedKeys(env, items) == env
    decreases |items|
  {
    if items != [] {
      OnlySettingsStay(env, items[1..]);
      assert items == [items[0]] + items[1..];
    }
  }

  /** What is loaded of any data: all entries but declarations and logging settings. */
  lemma {:induction false} SettingsExactly(items: seq<Pair>, p: Pair)
    ensures p in Settings(items) <==>
            p in items && p.key != "env" && !("env." <= p.key) && !("logging" <= p.key)
    decreases |items|
  {
    if items != [] {
      SettingsExactly(items[1..], p);
      assert items == [items[0]] + items[1..];
    }
  }

  /** What is read for declarations: all entries but logging settings. */
  lemma {:induction false} UnloggedExactly(items: seq<Pair>, p: Pair)
    ensures p in Unlogged(items) <==> p in items && !("logging" <= p.key)
    decreases |items|
  {
    if items != [] {
      UnloggedExactly(items[1..], p);
      assert items == [items[0]] + items[1..];
    }
  }

  /** The overrides: for each declaration whose variable is set, its value; but none of logging
      settings, which are kept elsewhere. */
  lemma {:induction false} OverridesExactly(env: seq<Binding>, environ: Environ, p: Pair)
    ensures p in Overrides(env, environ) <==>
            exists b :: b in env && b.name in environ && !("logging" <= b.key) &&
                        p == Pair(b.key, Plain(environ[b.name]))
    decreases |env|
  {
    if env != [] {
      OverridesExactly(env[1..], environ, p);
      assert forall b :: b in env <==> b == env[0] || b in env[1..];
    }
  }

  lemma RaisesAtPlainEnv(items: seq<Pair>)
    ensures Raises(items) <==> exists x :: Pair("env", Plain(x)) in items
  {
    if Raises(items) {
      var i :| 0 <= i < |items| && items[i].key == "env" && items[i].value.Plain?;
      assert items[i] == Pair("env", Plain(items[i].value.value));
    }
  }

  /** An update changes nothing at all if it finds a plain value under `env`; every other one
      takes note of the declarations, whether its data can be loaded or not. */
  lemma PlainEnvChangesNothing(c: Config, environ: Environ, items: seq<Pair>)
    ensures (exists x :: Pair("env", Plain(x)) in items) ==> UpdateConfig(c, environ, items) == c
    ensures !(exists x :: Pair("env", Plain(x)) in items) ==>
              UpdateConfig(c, environ, items).env == FromEnv(c.env, Unlogged(items))
  {
    hide Raises, FromEnv, Unlogged, Settings, SpelledItems, Load, Overrides, Broken, Update;
    RaisesAtPlainEnv(items);
  }

  ghost predicate QuietLoads(loads: seq<seq<Pair>>) {
    forall items :: items in loads ==> OnlySettings(items) && SpelledItems(items)
  }

  lemma {:induction false} QuietLoadsReturn(c: Config, environ: Environ, loads: seq<seq<Pair>>)
    requires QuietLoads(loads) && SpelledItems(Overrides(c.env, environ))
    ensures Updates(c, environ, loads).env == c.env && (loads != [] ==> LastReturns(c, environ, loads))
    decreases |loads|
  {
    if loads != [] {
      assert loads[0] in loads && forall items :: items in loads[1..] ==> items in loads;
      QuietLoad(c, environ, loads[0]);
      QuietLoadsReturn(UpdateConfig(c, environ, loads[0]), environ, loads[1..]);
      if loads[1..] != [] {
        OnlySettingsStay(c.env, loads[1]);
        assert loads[1..][0] == loads[1] && loads[1] in loads[1..];
      }
    }
  }

  lemma QuietLoad(c: Config, environ: Environ, items: seq<Pair>)
    requires OnlySettings(items) && SpelledItems(items) && SpelledItems(Overrides(c.env, environ))
    ensures Returns(c, environ, items) && UpdateConfig(c, environ, items).env == c.env
  {
    OnlySettingsStay(c.env, items);
    hide Unlogged, Settings, FromEnvKey, FromDottedKeys, Raises, Update, Overrides, SpelledItems, OnlySettings;
  }

  lemma PlainIsSpelled(path: Path)
    requires PlainPath(path)
    ensures ParseKey(Join(path)) == Key(path, false) && Spelled(Join(path))
  {
    hide ParseKey;
    ParseJoin(path);
    forall i | 0 <= i < |path| ensures Stored(path[i]) {
      ParseJoin([path[i]]);
    }
  }

  /** A declaring load by itself. */
  lemma DeclaringLoad(c: Config, environ: Environ, path: Path, name: Scalar, load: seq<Pair>)
    requires PlainPath(path) && NoEmpty(path) && !StartsWith(Join(path), "logging")
    requires load == NestedForm(path, name) || load == DottedForm(path, name)
    requires c.env == [] && name in environ
    ensures Returns(c, environ, load) && UpdateConfig(c, environ, load).env == [Binding(Join(path), name)]
    ensures SpelledItems(Overrides([Binding(Join(path), name)], environ))
  {
    PathDeclares([], path, name);
    PlainIsSpelled(path);
    FormIsOnlyDeclaration(path, name, load);
    hide Join, NestSource, FromEnv, Unlogged, Settings, Raises, Spelled, Update, NestedForm, DottedForm;
    var env := [Binding(Join(path), name)];
    assert env[1..] == [];
    assert Overrides(env, environ) == [Pair(Join(path), Plain(environ[name]))];
    assert SpelledItems([]) && SpelledItems(Overrides(env, environ));
    assert Bind([], Join(path), name) == env && FromEnv(c.env, Unlogged(load)) == env;
  }

  lemma FormIsOnlyDeclaration(path: Path, name: Scalar, load: seq<Pair>)
    requires path != [] && (load == NestedForm(path, name) || load == DottedForm(path, name))
    ensures Unlogged(load) == load && Settings(load) == [] && !Raises(load)
  {
    assert load[1..] == [];
    assert load[0].key[0] == 'e' && "logging"[0] == 'l';
    if load == DottedForm(path, name) {
      assert load[0].key[..4] == "env." && |load[0].key| >= 4;
      assert load[0].key[3] == '.';
    }
  }

  /** A path declared in either spelling reads as its variable, whatever is loaded later. */
  lemma DeclaredReadsBack(m: Kids, environ: Environ, path: Path, name: Scalar, load: seq<Pair>, more: seq<seq<Pair>>)
    requires PlainPath(path) && NoEmpty(path) && !StartsWith(Join(path), "logging")
    requires load == NestedForm(path, name) || load == DottedForm(path, name)
    requires name in environ && QuietLoads(more)
    ensures GetItem(Node(Updates(Config(m, []), environ, [load] + more).val), Join(path)) == Found(Leaf(environ[name]))
  {
    var c, loads, env := Config(m, []), [load] + more, [Binding(Join(path), name)];
    DeclaringLoad(c, environ, path, name, load);
    PlainIsSpelled(path);
    var next := UpdateConfig(c, environ, load);
    QuietLoadsReturn(next, environ, more);
    assert loads[0] == load && loads[1..] == more;
    assert LastReturns(c, environ, loads) by {
      if more != [] {
        OnlySettingsStay([], more[0]);
        assert more[0] in more && !Raises(more[0]);
      }
    }
    assert Updates(c, environ, loads) == Updates(next, environ, more);
    assert env[1..] == [];
    hide UpdateConfig, Updates, LastReturns, Join, ParseKey, GetItem, Walk;
    EnvironmentWins(c, environ, loads, 0);
  }
}
