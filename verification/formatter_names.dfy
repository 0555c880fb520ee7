/** Which formatter a name finds, and which characters around a name do not belong to it. */
module FormatterNames {
  import opened Wrappers
  import opened Text
  import opened Formatters
  import opened FormatterLaws

  // ---------- The nearest registration ----------

  /** The first registry of a chain that knows a name. */
  ghost predicate FirstKnows(layers: seq<Entries>, name: string, i: nat) {
    i < |layers| && name in layers[i] && forall j :: 0 <= j < i ==> name !in layers[j]
  }

  lemma {:induction false} NearestWins(layers: seq<Entries>, name: string)
    ensures FirstWith(layers, name).None? <==> forall i :: 0 <= i < |layers| ==> name !in layers[i]
    ensures forall i: nat :: FirstKnows(layers, name, i) ==> FirstWith(layers, name) == Some(layers[i][name])
    decreases |layers|
  {
    if layers != [] {
      NearestWins(layers[1..], name);
      forall i: nat | FirstKnows(layers, name, i)
        ensures FirstWith(layers, name) == Some(layers[i][name])
      {
        if i > 0 {
          assert forall j :: 0 <= j < i - 1 ==> layers[1..][j] == layers[j + 1];
          assert FirstKnows(layers[1..], name, i - 1);
        }
      }
    }
  }

  /** A single name finds the nearest registration, the registry's own before its parent's, and
      nothing if there is none; no name, or "bytes", leaves every value as it is. */
  lemma GetsNearest(layers: seq<Entries>, name: string, b: Data)
    requires layers != [] && !HasSep(name)
    ensures name == "" || name == "bytes" ==>
              Resolve(layers, name) == Some(AsIs) && Encode(AsIs, b) == Some(b) == Decode(AsIs, b)
    ensures name != "" && name != "bytes" ==>
              && (Resolve(layers, name).None? <==> forall i :: 0 <= i < |layers| ==> name !in layers[i])
              && forall i: nat :: FirstKnows(layers, name, i) ==> Resolve(layers, name) == Some(Atomic(layers[i][name]))
  {
    NearestWins(layers, name);
  }

  // ---------- Blanks ----------

  /** Blanks as ASCII has them. */
  ghost predicate Blanks(s: string) {
    forall i :: 0 <= i < |s| ==> 9 <= s[i] as int <= 13 || 28 <= s[i] as int <= 32
  }

  /** A text that starts and ends with a printable ASCII character. */
  ghost predicate Printable(s: string) {
    s != "" && 33 <= s[0] as int <= 126 && 33 <= s[|s| - 1] as int <= 126
  }

  lemma NoBlanks()
    ensures Blanks("")
  {
  }

  lemma {:induction false} BlanksInFront(u: string, s: string)
    requires Blanks(u)
    ensures TrimLeft(u + s) == TrimLeft(s)
    decreases |u|
  {
    if u == "" {
      assert u + s == s;
    } else {
      assert (u + s)[0] == u[0] && (u + s)[1..] == u[1..] + s;
      BlanksInFront(u[1..], s);
    }
  }

  lemma {:induction false} BlanksBehind(s: string, u: string)
    requires Blanks(u)
    ensures TrimRight(s + u) == TrimRight(s)
    decreases |u|
  {
    if u == "" {
      assert s + u == s;
    } else {
      var n := |u| - 1;
      assert (s + u)[|s + u| - 1] == u[n] && (s + u)[..|s + u| - 1] == s + u[..n];
      BlanksBehind(s, u[..n]);
    }
  }

  /** Blanks around a name are dropped and nothing else is. */
  lemma TrimsBlanksOnly(u: string, name: string, v: string)
    requires Blanks(u) && Blanks(v) && Printable(name)
    ensures Trim(u + name + v) == name
  {
    hide Blanks;
    assert u + name + v == u + (name + v);
    BlanksInFront(u, name + v);
    assert (name + v)[0] == name[0];
    BlanksBehind(name, v);
  }

  lemma NamesApart(a: string, c: char, b: string)
    requires IsSep(c)
    ensures Names(a + [c] + b) == Names(a) + Names(b)
  {
    SplitSepsJoin(a, c, b);
    TrimAllAppend(SplitSeps(a), SplitSeps(b));
  }

  lemma NamesPadded(u: string, s: string, v: string)
    requires Blanks(u) && Blanks(v)
    ensures Names(u + s + v) == Names(s)
  {
    hide Names, Blanks;
    assert u + s + v == u + (s + v);
    BlanksInFront(u, s + v);
    NamesTrimLeft(u + (s + v));
    NamesTrimLeft(s + v);
    BlanksBehind(s, v);
    NamesTrimRight(s + v);
    NamesTrimRight(s);
  }

  /** Blanks on both sides of a separator make no difference. */
  lemma BlanksDoNotMatter(layers: seq<Entries>, a: string, u: string, c: char, v: string, d: string, b: Data)
    requires layers != [] && CleanNames(layers) && IsSep(c) && Blanks(u) && Blanks(v)
    ensures var f, g := Resolve(layers, a + u + [c] + (v + d)), Resolve(layers, a + [c] + d);
            && (f.Some? <==> g.Some?)
            && (f.Some? ==> Encode(f.value, b) == Encode(g.value, b) && Decode(f.value, b) == Decode(g.value, b))
  {
    hide Names, Blanks, Resolve, Encode, Decode;
    var wide, tight := a + u + [c] + (v + d), a + [c] + d;
    NamesApart(a + u, c, v + d);
    NamesApart(a, c, d);
    NoBlanks();
    NamesPadded("", a, u);
    NamesPadded(v, d, "");
    assert "" + a + u == a + u && v + d + "" == v + d;
    assert wide[|a + u|] == c && tight[|a|] == c;
    ResolveIsFlat(layers, wide);
    ResolveIsFlat(layers, tight);
    var f, g := Resolve(layers, wide), Resolve(layers, tight);
    if f.Some? {
      ActsAsFlat(f.value, b);
      ActsAsFlat(g.value, b);
    }
  }

  /** Two names with a separator and any blanks between and around them are those two names. */
  lemma PairMeansBoth(layers: seq<Entries>, u: string, first: string, c: char, second: string, v: string)
    requires layers != [] && CleanNames(layers) && IsSep(c) && Blanks(u) && Blanks(v)
    requires Printable(first) && Printable(second) && !HasSep(first) && !HasSep(second)
    ensures Flat(Resolve(layers, u + first + [c] + (second + v))) ==
            Both(AtomOf(layers, first), AtomOf(layers, second))
  {
    hide Blanks, Resolve, AtomOf, Printable, Names;
    var spec := u + first + [c] + (second + v);
    NoBlanks();
    assert spec[|u + first|] == c;
    ResolveIsFlat(layers, spec);
    NamesApart(u + first, c, second + v);
    NamesPadded(u, first, "");
    NamesPadded("", second, v);
    assert u + first + "" == u + first && "" + second + v == second + v;
    OneName(layers, first);
    OneName(layers, second);
    AtomsAppend(layers, [first], [second]);
  }

  lemma OneName(layers: seq<Entries>, name: string)
    requires Printable(name) && !HasSep(name)
    ensures Names(name) == [name] && AtomsOf(layers, [name]) == AtomOf(layers, name)
  {
    TrimsBlanksOnly("", name, "");
    assert "" + name + "" == name;
    assert SplitSeps(name)[1..] == [];
    var atom := AtomOf(layers, name);
    assert [name][1..] == [] && (atom.Some? ==> atom.value + [] == atom.value);
  }
}
