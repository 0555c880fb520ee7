/** The registry of formatters and the chains it builds, updated and walked in place. */
module Registries {
  import opened Wrappers
  import opened Text
  import opened Formatters

  // ---------- Chains ----------

  function Reversed(parts: seq<Formatter>): (r: seq<Formatter>)
    ensures |r| == |parts| && forall i :: 0 <= i < |r| ==> r[i] == parts[|parts| - 1 - i]
  {
    if parts == [] then [] else Reversed(parts[1..]) + [parts[0]]
  }

  lemma {:induction false} DecodePartsSnoc(parts: seq<Formatter>, f: Formatter, b: Data)
    ensures DecodeParts(parts + [f], b) ==
            match Decode(f, b) case None => None case Some(x) => DecodeParts(parts, x)
    decreases |parts|
  {
    if parts == [] {
      assert [] + [f] == [f] && [f][1..] == [];
    } else {
      assert (parts + [f])[1..] == parts[1..] + [f];
      DecodePartsSnoc(parts[1..], f, b);
    }
  }

  class ChainFormatter {
    const forward: seq<Formatter>
    const backward: seq<Formatter>

    ghost predicate Valid() {
      backward == Reversed(forward)
    }

    constructor (formatters: seq<Formatter>)
      ensures Valid() && forward == formatters
    {
      forward := formatters;
      backward := Reversed(formatters);
    }

    method EncodeValue(value: Data) returns (r: Option<Data>)
      ensures r == Encode(Chain(forward), value)
    {
      var b := value;
      assert forward[0..] == forward;
      for i := 0 to |forward|
        invariant EncodeParts(forward, value) == EncodeParts(forward[i..], b)
      {
        assert forward[i..][1..] == forward[i + 1..];
        var x := Encode(forward[i], b);
        if x.None? { return None; }
        b := x.value;
      }
      return Some(b);
    }

    method DecodeValue(value: Data) returns (r: Option<Data>)
      requires Valid()
      ensures r == Decode(Chain(forward), value)
    {
      var b, n := value, |backward|;
      assert forward[..n] == forward;
      for i := 0 to n
        invariant DecodeParts(forward, value) == DecodeParts(forward[..n - i], b)
      {
        assert forward[..n - i] == forward[..n - i - 1] + [backward[i]];
        DecodePartsSnoc(forward[..n - i - 1], backward[i], b);
        var x := Decode(backward[i], b);
        if x.None? { return None; }
        b := x.value;
      }
      return Some(b);
    }
  }

  // ---------- The registry ----------

  function WithMimes(entries: Entries, mimes: seq<string>, codec: Codec): Entries
    decreases |mimes|
  {
    if mimes == [] then entries else WithMimes(entries[mimes[0] := codec], mimes[1..], codec)
  }

  lemma {:induction false} WithMimesAdds(entries: Entries, mimes: seq<string>, codec: Codec)
    ensures var e := WithMimes(entries, mimes, codec);
            && e.Keys == entries.Keys + (set m | m in mimes)
            && forall name :: name in e ==> e[name] == if name in mimes then codec else entries[name]
    decreases |mimes|
  {
    if mimes != [] { WithMimesAdds(entries[mimes[0] := codec], mimes[1..], codec); }
  }

  function Join(done: seq<Formatter>, rest: Option<seq<Formatter>>): Option<seq<Formatter>> {
    match rest case None => None case Some(fs) => Some(done + fs)
  }

  lemma JoinNothing(rest: Option<seq<Formatter>>)
    ensures Join([], rest) == rest
  {
    if rest.Some? { assert [] + rest.value == rest.value; }
  }

  lemma JoinSnoc(done: seq<Formatter>, f: Formatter, rest: Option<seq<Formatter>>)
    ensures Join(done, Join([f], rest)) == Join(done + [f], rest)
  {
    if rest.Some? { assert done + ([f] + rest.value) == (done + [f]) + rest.value; }
  }

  class Registry {
    const parent: Registry?
    var entries: Entries
    ghost const ancestors: set<Registry>

    ghost predicate Valid()
      decreases ancestors
    {
      && this !in ancestors
      && (parent != null ==> parent in ancestors && parent.ancestors < ancestors && parent.Valid())
    }

    /** Its own entries, then those of its ancestors, nearest first. */
    ghost function Layers(): (layers: seq<Entries>)
      requires Valid()
      reads this, ancestors
      ensures layers != [] && layers[0] == entries
      decreases ancestors
    {
      [entries] + if parent == null then [] else parent.Layers()
    }

    constructor (parent: Registry?)
      requires parent != null ==> parent.Valid()
      ensures Valid() && fresh(this) && this.parent == parent && entries == map[]
      ensures Layers() == [map[]] + if parent == null then [] else parent.Layers()
    {
      this.parent := parent;
      entries := map[];
      ancestors := if parent == null then {} else {parent} + parent.ancestors;
    }

    /** An empty layer in front of the parent's; what it resolves is in `ChildResolvesExactly`. */
    method NewChild() returns (child: Registry)
      requires Valid()
      ensures fresh(child) && child.Valid() && child.Layers() == [map[]] + Layers()
    {
      child := new Registry(this);
    }

    /** `__call__`: a name already taken is refused, a MIME type already taken is replaced. */
    method Register(name: string, mimes: seq<string>, codec: Codec) returns (ok: bool)
      requires Valid()
      modifies `entries
      ensures ok <==> name !in old(entries)
      ensures !ok ==> entries == old(entries)
      ensures ok ==> entries.Keys == old(entries).Keys + {name} + set m | m in mimes
      ensures ok ==> forall k :: k in entries ==>
                entries[k] == if k == name || k in mimes then codec else old(entries)[k]
    {
      if name in entries { return false; }
      entries := entries[name := codec];
      ghost var target := WithMimes(entries, mimes, codec);
      WithMimesAdds(entries, mimes, codec);
      assert mimes[0..] == mimes;
      for i := 0 to |mimes|
        invariant WithMimes(entries, mimes[i..], codec) == target
      {
        assert mimes[i..][1..] == mimes[i + 1..];
        entries := entries[mimes[i] := codec];
      }
      return true;
    }

    /** Up the chain of parents. */
    method FindAbove(name: string) returns (r: Option<Codec>)
      requires Valid()
      ensures r == FirstWith(Layers()[1..], name)
    {
      var a: Registry := this;
      while a.parent != null
        invariant a.Valid() && FirstWith(Layers()[1..], name) == FirstWith(a.Layers()[1..], name)
        decreases a.ancestors
      {
        assert a.Layers()[1..] == a.parent.Layers();
        a := a.parent;
        if name in a.entries { return Some(a.entries[name]); }
      }
      return None;
    }

    method Get(name: string) returns (r: Option<Formatter>)
      requires Valid()
      ensures r == Resolve(Layers(), name)
      decreases |name|, 1
    {
      if name == "" || name == "bytes" {
        return Some(AsIs);
      } else if name in entries {
        return Some(Atomic(entries[name]));
      } else if ':' in name {
        r := GetAll(SplitOn(name, ':'), |name|);
      } else if '|' in name {
        r := GetAll(SplitOn(name, '|'), |name|);
      } else {
        var c := FindAbove(name);
        return if c.Some? then Some(Atomic(c.value)) else None;
      }
    }

    /** `get` on a list of names. */
    method GetMany(names: seq<string>) returns (r: Option<Formatter>)
      requires Valid()
      ensures r == ResolveMany(Layers(), names)
    {
      if names == [] {
        return Some(AsIs);
      }
      r := GetAll(names, Beyond(names));
    }

    method GetAll(key: seq<string>, ghost bound: nat) returns (r: Option<Formatter>)
      requires Valid() && forall i :: 0 <= i < |key| ==> |key[i]| < bound
      ensures r == ResolveParts(Layers(), key, bound)
      decreases bound, 0
    {
      var fs := [];
      assert key[0..] == key;
      JoinNothing(ResolveList(Layers(), key, bound));
      for i := 0 to |key|
        invariant ResolveList(Layers(), key, bound) == Join(fs, ResolveList(Layers(), key[i..], bound))
      {
        assert key[i..][1..] == key[i + 1..];
        var f := Get(Trim(key[i]));
        if f.None? { return None; }
        JoinSnoc(fs, f.value, ResolveList(Layers(), key[i + 1..], bound));
        fs := fs + [f.value];
      }
      assert fs + [] == fs;
      return Some(Chain(fs));
    }
  }
}
