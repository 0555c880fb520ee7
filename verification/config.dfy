/** `Config` over a `MergeDict`: `_from_env` collects declarations in place, `_update` loads
    the data and then the overrides. */
module Configs {
  import opened ConfigSpec
  import opened ConfigEnv
  import opened MergeDicts

  /** The data can be loaded, or nothing is; see `Spelled`. */
  ghost predicate CanLoad(c: Config, environ: Environ, items: seq<Pair>) {
    Raises(items) || Returns(c, environ, items)
  }

  class ConfigObject {
    const val: MergeDict
    var env: seq<Binding>

    ghost predicate Valid()
      reads this, val, val.Repr
    {
      val.Valid()
    }

    ghost function View(): Config
      requires Valid()
      reads this, val, val.Repr
    {
      Config(val.tree.kids, env)
    }

    constructor ()
      ensures Valid() && fresh(val) && fresh(val.Repr) && View() == Config(map[], [])
    {
      val := new MergeDict();
      env := [];
    }

    method BindName(key: string, name: Scalar)
      modifies this
      ensures env == Bind(old(env), key, name)
    {
      var i := 0;
      while i < |env| && env[i].key != key
        invariant 0 <= i <= |env| && env == old(env)
        invariant Bind(env, key, name) == env[..i] + Bind(env[i..], key, name)
      {
        assert env[i..][1..] == env[i + 1..];
        assert env[..i] + [env[i]] == env[..i + 1];
        i := i + 1;
      }
      if i < |env| {
        assert env[i..][1..] == env[i + 1..];
        env := env[..i] + [Binding(key, name)] + env[i + 1..];
      } else {
        env := env + [Binding(key, name)];
      }
    }

    /** `flater` */
    method Flater(items: seq<Pair>, prefix: string)
      modifies this
      ensures env == Flatten(old(env), items, prefix)
      decreases items
    {
      var i := 0;
      while i < |items|
        invariant 0 <= i <= |items|
        invariant Flatten(env, items[i..], prefix) == Flatten(old(env), items, prefix)
      {
        assert items[i..][1..] == items[i + 1..];
        var key := if prefix != "" then prefix + "." + items[i].key else items[i].key;
        match items[i].value {
          case Plain(name) => BindName(key, name);
          case Dict(inner) => Flater(inner, key);
        }
        i := i + 1;
      }
    }

    /** The declarations of `_from_env`. */
    method CollectEnv(items: seq<Pair>)
      modifies this
      ensures env == FromEnv(old(env), items)
    {
      var i := 0;
      while i < |items|
        invariant 0 <= i <= |items|
        invariant FromEnvKey(env, items[i..]) == FromEnvKey(old(env), items)
      {
        assert items[i..][1..] == items[i + 1..];
        if items[i].key == "env" && items[i].value.Dict? {
          Flater(items[i].value.items, "");
        }
        i := i + 1;
      }
      i := 0;
      while i < |items|
        invariant 0 <= i <= |items|
        invariant FromDottedKeys(env, items[i..]) == FromEnv(old(env), items)
      {
        assert items[i..][1..] == items[i + 1..];
        if StartsWith(items[i].key, "env.") {
          match items[i].value {
            case Plain(name) => BindName(items[i].key[4..], name);
            case Dict(inner) => Flater(inner, items[i].key[4..]);
          }
        }
        i := i + 1;
      }
    }

    /** Whether flattening what is under `env` raises. */
    static method CheckEnv(items: seq<Pair>) returns (raises: bool)
      ensures raises == Raises(items)
    {
      var i := 0;
      while i < |items|
        invariant 0 <= i <= |items|
        invariant forall j :: 0 <= j < i ==> items[j].key != "env" || items[j].value.Dict?
      {
        if items[i].key == "env" && items[i].value.Plain? {
          return true;
        }
        i := i + 1;
      }
      return false;
    }

    /** `_update`, which may raise and then has changed nothing. */
    method UpdateWith(environ: Environ, items: seq<Pair>) returns (ok: bool)
      requires Valid() && CanLoad(View(), environ, items)
      modifies this, val.Repr
      ensures Valid() && View() == UpdateConfig(old(View()), environ, items)
      ensures ok <==> !Raises(items)
    {
      var raises := CheckEnv(items);
      if raises {
        return false;
      }
      CollectEnv(Unlogged(items));
      val.UpdateFrom(Raw(Dict(Settings(items))));
      val.UpdateFrom(Raw(Dict(Overrides(env, environ))));
      return true;
    }
  }
}
