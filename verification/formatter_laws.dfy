/** A pipeline acts as the composition of the atoms its specification lists, however the two
    separators are mixed. */
module FormatterLaws {
  import opened Wrappers
  import opened Text
  import opened Formatters

  // ---------- The atoms of a specification ----------

  predicate IsSep(c: char) {
    c == ':' || c == '|'
  }

  predicate HasSep(s: string) {
    ':' in s || '|' in s
  }

  /** The pieces of a text with one more character in front. */
  function Prepend(c: char, parts: seq<string>): (r: seq<string>)
    requires parts != []
    ensures r != []
  {
    if IsSep(c) then [""] + parts else [[c] + parts[0]] + parts[1..]
  }

  /** A text cut at every separator of either kind. */
  function SplitSeps(s: string): (parts: seq<string>)
    ensures parts != []
    ensures !HasSep(s) ==> parts == [s]
  {
    if s == "" then [""]
    else
      assert s == [s[0]] + s[1..];
      Prepend(s[0], SplitSeps(s[1..]))
  }

  function TrimAll(parts: seq<string>): (names: seq<string>)
    ensures |names| == |parts| && forall i :: 0 <= i < |parts| ==> names[i] == Trim(parts[i])
  {
    if parts == [] then [] else [Trim(parts[0])] + TrimAll(parts[1..])
  }

  /** The names of the atoms, left to right. */
  function Names(s: string): seq<string> {
    TrimAll(SplitSeps(s))
  }

  function NamesOfAll(parts: seq<string>): seq<string> {
    if parts == [] then [] else Names(parts[0]) + NamesOfAll(parts[1..])
  }

  lemma TrimAllAppend(a: seq<string>, b: seq<string>)
    ensures TrimAll(a + b) == TrimAll(a) + TrimAll(b)
  {
  }

  function SplitSepsOfAll(parts: seq<string>): seq<string> {
    if parts == [] then [] else SplitSeps(parts[0]) + SplitSepsOfAll(parts[1..])
  }

  lemma {:induction false} NamesOfAllTrims(parts: seq<string>)
    ensures NamesOfAll(parts) == TrimAll(SplitSepsOfAll(parts))
  {
    if parts != [] {
      NamesOfAllTrims(parts[1..]);
      TrimAllAppend(SplitSeps(parts[0]), SplitSepsOfAll(parts[1..]));
    }
  }

  lemma PrependAppend(c: char, a: seq<string>, b: seq<string>)
    requires a != []
    ensures Prepend(c, a + b) == Prepend(c, a) + b
  {
    assert (a + b)[1..] == a[1..] + b;
  }

  /** Cutting at one separator first and then at both is cutting at both. */
  lemma {:induction false} SplitTwice(s: string, c: char)
    requires IsSep(c)
    ensures SplitSeps(s) == SplitSepsOfAll(SplitOn(s, c))
    decreases |s|
  {
    var parts := SplitOn(s, c);
    if s == "" {
      assert parts[1..] == [];
      assert SplitSeps("") + [] == SplitSeps("");
    } else {
      SplitTwice(s[1..], c);
      var rest := SplitOn(s[1..], c);
      if s[0] == c {
        assert parts[1..] == rest;
      } else {
        assert parts[0][1..] == rest[0] && parts[1..] == rest[1..];
        PrependAppend(s[0], SplitSeps(rest[0]), SplitSepsOfAll(rest[1..]));
      }
    }
  }

  lemma NamesSplit(s: string, c: char)
    requires IsSep(c)
    ensures Names(s) == NamesOfAll(SplitOn(s, c))
  {
    SplitTwice(s, c);
    NamesOfAllTrims(SplitOn(s, c));
  }

  lemma {:induction false} TrimSnoc(s: string, b: char)
    requires IsBlank(b)
    ensures Trim(s + [b]) == Trim(s)
    decreases |s|
  {
    if s == "" {
      assert s + [b] == [b] && [b][1..] == "";
    } else {
      assert (s + [b])[1..] == s[1..] + [b] && (s + [b])[..|s|] == s;
      if IsBlank(s[0]) { TrimSnoc(s[1..], b); }
    }
  }

  /** The pieces of a text with one more character at the end. */
  function Extend(parts: seq<string>, b: char): seq<string>
    requires parts != []
  {
    parts[..|parts| - 1] + [parts[|parts| - 1] + [b]]
  }

  lemma PrependExtend(c: char, parts: seq<string>, b: char)
    requires parts != []
    ensures Prepend(c, Extend(parts, b)) == Extend(Prepend(c, parts), b)
  {
    if !IsSep(c) && |parts| == 1 {
      assert [c] + (parts[0] + [b]) == ([c] + parts[0]) + [b];
    }
  }

  lemma {:induction false} SplitSepsSnoc(s: string, b: char)
    requires !IsSep(b)
    ensures SplitSeps(s + [b]) == Extend(SplitSeps(s), b)
    decreases |s|
  {
    if s == "" {
      assert s + [b] == [b] && !HasSep([b]);
      assert "" + [b] == [b];
    } else {
      assert (s + [b])[0] == s[0] && (s + [b])[1..] == s[1..] + [b];
      SplitSepsSnoc(s[1..], b);
      PrependExtend(s[0], SplitSeps(s[1..]), b);
    }
  }

  lemma TrimAllExtend(parts: seq<string>, b: char)
    requires parts != [] && IsBlank(b)
    ensures TrimAll(Extend(parts, b)) == TrimAll(parts)
  {
    var n := |parts| - 1;
    TrimSnoc(parts[n], b);
    assert parts == parts[..n] + [parts[n]];
    TrimAllAppend(parts[..n], [parts[n]]);
    TrimAllAppend(parts[..n], [parts[n] + [b]]);
    hide Trim;
    assert [parts[n]][1..] == [] && [parts[n] + [b]][1..] == [];
  }

  /** Trimming a text does not change the names in it. */
  lemma {:induction false} NamesTrimLeft(s: string)
    ensures Names(TrimLeft(s)) == Names(s) && (HasSep(TrimLeft(s)) <==> HasSep(s))
    decreases |s|
  {
    if s != "" && IsBlank(s[0]) {
      NamesTrimLeft(s[1..]);
      var rest := SplitSeps(s[1..]);
      assert s == [s[0]] + s[1..];
      assert ([s[0]] + rest[0])[1..] == rest[0];
      assert Trim([s[0]] + rest[0]) == Trim(rest[0]);
      assert Names(s) == Names(s[1..]);
    }
  }

  lemma {:induction false} NamesTrimRight(s: string)
    ensures Names(TrimRight(s)) == Names(s) && (HasSep(TrimRight(s)) <==> HasSep(s))
    decreases |s|
  {
    if s != "" && IsBlank(s[|s| - 1]) {
      var t, b := s[..|s| - 1], s[|s| - 1];
      NamesTrimRight(t);
      assert s == t + [b];
      SplitSepsSnoc(t, b);
      TrimAllExtend(SplitSeps(t), b);
    }
  }

  lemma NamesTrim(s: string)
    ensures Names(Trim(s)) == Names(s) && (HasSep(Trim(s)) <==> HasSep(s))
  {
    NamesTrimLeft(s);
    NamesTrimRight(TrimLeft(s));
  }

  // ---------- Flattening ----------

  function Flatten(f: Formatter): seq<Codec>
    decreases f, 1
  {
    match f
    case AsIs => []
    case Atomic(c) => [c]
    case Chain(parts) => FlattenAll(parts)
  }

  function FlattenAll(fs: seq<Formatter>): seq<Codec>
    decreases fs, 0
  {
    if fs == [] then [] else Flatten(fs[0]) + FlattenAll(fs[1..])
  }

  /** What one name stands for: nothing to do, or the nearest registered formatter. */
  function AtomOf(layers: seq<Entries>, name: string): Option<seq<Codec>> {
    if name == "" || name == "bytes" then Some([])
    else
      match FirstWith(layers, name)
      case None => None
      case Some(c) => Some([c])
  }

  function Both(x: Option<seq<Codec>>, y: Option<seq<Codec>>): Option<seq<Codec>> {
    if x.Some? && y.Some? then Some(x.value + y.value) else None
  }

  function AtomsOf(layers: seq<Entries>, names: seq<string>): Option<seq<Codec>> {
    if names == [] then Some([]) else Both(AtomOf(layers, names[0]), AtomsOf(layers, names[1..]))
  }

  /** What a specification stands for: its atoms, or a single name looked up as it is. */
  function Meaning(layers: seq<Entries>, spec: string): Option<seq<Codec>> {
    if HasSep(spec) then AtomsOf(layers, Names(spec)) else AtomOf(layers, spec)
  }

  function Flat(f: Option<Formatter>): Option<seq<Codec>> {
    match f case None => None case Some(g) => Some(Flatten(g))
  }

  function FlatAll(fs: Option<seq<Formatter>>): Option<seq<Codec>> {
    match fs case None => None case Some(g) => Some(FlattenAll(g))
  }

  ghost predicate CleanNames(layers: seq<Entries>) {
    forall e, name :: e in layers && name in e ==> !HasSep(name)
  }

  lemma BothAssociates(x: Option<seq<Codec>>, y: Option<seq<Codec>>, z: Option<seq<Codec>>)
    ensures Both(Both(x, y), z) == Both(x, Both(y, z))
  {
    if x.Some? && y.Some? && z.Some? {
      assert (x.value + y.value) + z.value == x.value + (y.value + z.value);
    }
  }

  lemma {:induction false} AtomsAppend(layers: seq<Entries>, a: seq<string>, b: seq<string>)
    ensures AtomsOf(layers, a + b) == Both(AtomsOf(layers, a), AtomsOf(layers, b))
    decreases |a|
  {
    if a == [] {
      assert a + b == b;
      if AtomsOf(layers, b).Some? { assert [] + AtomsOf(layers, b).value == AtomsOf(layers, b).value; }
    } else {
      assert (a + b)[1..] == a[1..] + b;
      AtomsAppend(layers, a[1..], b);
      BothAssociates(AtomOf(layers, a[0]), AtomsOf(layers, a[1..]), AtomsOf(layers, b));
    }
  }

  /** Any specification over clean names resolves exactly if all its atoms do, and then to
      those atoms in order. */
  lemma {:induction false} ResolveIsFlat(layers: seq<Entries>, spec: string)
    requires layers != [] && CleanNames(layers)
    ensures Flat(Resolve(layers, spec)) == Meaning(layers, spec)
    decreases |spec|, 1
  {
    if spec == "" || spec == "bytes" {
      assert !HasSep(spec);
    } else if HasSep(spec) {
      assert layers[0] in layers && spec !in layers[0];
      var c := if ':' in spec then ':' else '|';
      ResolveListIsFlat(layers, SplitOn(spec, c), |spec|);
      NamesSplit(spec, c);
    }
  }

  lemma {:induction false} ResolveListIsFlat(layers: seq<Entries>, parts: seq<string>, bound: nat)
    requires layers != [] && CleanNames(layers) && forall i :: 0 <= i < |parts| ==> |parts[i]| < bound
    ensures FlatAll(ResolveList(layers, parts, bound)) == AtomsOf(layers, NamesOfAll(parts))
    decreases bound, 0, |parts|
  {
    if parts != [] {
      ResolveIsFlat(layers, Trim(parts[0]));
      PartMeans(layers, parts[0]);
      ResolveListIsFlat(layers, parts[1..], bound);
      AtomsAppend(layers, Names(parts[0]), NamesOfAll(parts[1..]));
    }
  }

  lemma PartMeans(layers: seq<Entries>, part: string)
    ensures Meaning(layers, Trim(part)) == AtomsOf(layers, Names(part))
  {
    NamesTrim(part);
    if !HasSep(part) {
      var n := [Trim(part)];
      assert Names(part) == n;
      assert AtomsOf(layers, n[1..]) == Some([]);
      var atom := AtomOf(layers, n[0]);
      if atom.Some? { assert atom.value + [] == atom.value; }
    }
  }

  // ---------- Acting as the composition ----------

  function EncodeAll(cs: seq<Codec>, b: Data): Option<Data> {
    if cs == [] then Some(b)
    else match cs[0].enc(b) case None => None case Some(x) => EncodeAll(cs[1..], x)
  }

  function DecodeAll(cs: seq<Codec>, b: Data): Option<Data> {
    if cs == [] then Some(b)
    else match DecodeAll(cs[1..], b) case None => None case Some(x) => cs[0].dec(x)
  }

  function Then(x: Option<Data>, f: Data -> Option<Data>): Option<Data> {
    match x case None => None case Some(y) => f(y)
  }

  lemma {:induction false} EncodeAllAppend(a: seq<Codec>, b: seq<Codec>, x: Data)
    ensures EncodeAll(a + b, x) == Then(EncodeAll(a, x), y => EncodeAll(b, y))
    decreases |a|
  {
    if a == [] {
      assert a + b == b;
    } else {
      assert (a + b)[1..] == a[1..] + b;
      var y := a[0].enc(x);
      if y.Some? { EncodeAllAppend(a[1..], b, y.value); }
    }
  }

  lemma {:induction false} DecodeAllAppend(a: seq<Codec>, b: seq<Codec>, x: Data)
    ensures DecodeAll(a + b, x) == Then(DecodeAll(b, x), y => DecodeAll(a, y))
    decreases |a|
  {
    if a == [] {
      assert a + b == b;
    } else {
      assert (a + b)[1..] == a[1..] + b;
      DecodeAllAppend(a[1..], b, x);
    }
  }

  /** A formatter, however nested, encodes through its atoms left to right and decodes
      through them right to left. */
  lemma {:induction false} ActsAsFlat(f: Formatter, b: Data)
    ensures Encode(f, b) == EncodeAll(Flatten(f), b)
    ensures Decode(f, b) == DecodeAll(Flatten(f), b)
    decreases f, 1
  {
    match f
    case AsIs =>
    case Atomic(c) =>
      assert [c][1..] == [];
    case Chain(parts) => PartsActAsFlat(parts, b);
  }

  lemma {:induction false} PartsActAsFlat(fs: seq<Formatter>, b: Data)
    ensures EncodeParts(fs, b) == EncodeAll(FlattenAll(fs), b)
    ensures DecodeParts(fs, b) == DecodeAll(FlattenAll(fs), b)
    decreases fs, 0
  {
    if fs != [] {
      var head, rest := Flatten(fs[0]), FlattenAll(fs[1..]);
      EncodeAllAppend(head, rest, b);
      DecodeAllAppend(head, rest, b);
      ActsAsFlat(fs[0], b);
      var x := Encode(fs[0], b);
      if x.Some? { PartsActAsFlat(fs[1..], x.value); }
      PartsActAsFlat(fs[1..], b);
      var y := DecodeParts(fs[1..], b);
      if y.Some? { ActsAsFlat(fs[0], y.value); }
    }
  }

  /** The pipeline a specification resolves to is the composition of its atoms. */
  lemma PipelineComposes(layers: seq<Entries>, spec: string, b: Data)
    requires layers != [] && CleanNames(layers) && Resolve(layers, spec).Some?
    ensures Meaning(layers, spec).Some?
    ensures Encode(Resolve(layers, spec).value, b) == EncodeAll(Meaning(layers, spec).value, b)
    ensures Decode(Resolve(layers, spec).value, b) == DecodeAll(Meaning(layers, spec).value, b)
  {
    ResolveIsFlat(layers, spec);
    ActsAsFlat(Resolve(layers, spec).value, b);
  }

  /** Every atom takes back what it makes of the value that reaches it. */
  ghost predicate Inverts(cs: seq<Codec>, b: Data) {
    cs == [] ||
    var x := cs[0].enc(b);
    x.Some? && cs[0].dec(x.value) == Some(b) && Inverts(cs[1..], x.value)
  }

  lemma {:induction false} AtomsRoundTrip(cs: seq<Codec>, b: Data)
    requires Inverts(cs, b)
    ensures EncodeAll(cs, b).Some? && DecodeAll(cs, EncodeAll(cs, b).value) == Some(b)
    decreases |cs|
  {
    if cs != [] { AtomsRoundTrip(cs[1..], cs[0].enc(b).value); }
  }

  /** A pipeline decodes what it encodes if every atom does, on the values they receive. */
  lemma PipelineRoundTrip(layers: seq<Entries>, spec: string, b: Data)
    requires layers != [] && CleanNames(layers) && Resolve(layers, spec).Some?
    requires Meaning(layers, spec).Some? ==> Inverts(Meaning(layers, spec).value, b)
    ensures var f := Resolve(layers, spec).value;
            Encode(f, b).Some? && Decode(f, Encode(f, b).value) == Some(b)
  {
    PipelineComposes(layers, spec, b);
    var x := EncodeAll(Meaning(layers, spec).value, b);
    AtomsRoundTrip(Meaning(layers, spec).value, b);
    PipelineComposes(layers, spec, x.value);
  }

  // ---------- Independence ----------

  /** The same specification spelled with colons only. */
  function Colons(spec: string): (t: string)
    ensures |t| == |spec| && (HasSep(t) <==> HasSep(spec))
  {
    if spec == "" then ""
    else
      assert spec == [spec[0]] + spec[1..];
      [if spec[0] == '|' then ':' else spec[0]] + Colons(spec[1..])
  }

  lemma {:induction false} ColonsCutAlike(spec: string)
    ensures SplitSeps(Colons(spec)) == SplitSeps(spec)
    decreases |spec|
  {
    if spec != "" {
      var t := Colons(spec);
      assert t[1..] == Colons(spec[1..]);
      ColonsCutAlike(spec[1..]);
    }
  }

  /** Mixing the separators, or nesting one in the other, makes no difference. */
  lemma SeparatorsAreAlike(layers: seq<Entries>, spec: string, b: Data)
    requires layers != [] && CleanNames(layers)
    ensures var f, g := Resolve(layers, spec), Resolve(layers, Colons(spec));
            && (f.Some? <==> g.Some?)
            && (f.Some? ==> Encode(f.value, b) == Encode(g.value, b) && Decode(f.value, b) == Decode(g.value, b))
  {
    ColonsCutAlike(spec);
    if !HasSep(spec) { NoSepNoChange(spec); }
    var f, g := Resolve(layers, spec), Resolve(layers, Colons(spec));
    ResolveIsFlat(layers, spec);
    ResolveIsFlat(layers, Colons(spec));
    if f.Some? {
      ActsAsFlat(f.value, b);
      ActsAsFlat(g.value, b);
    }
  }

  lemma {:induction false} NoSepNoChange(spec: string)
    requires !HasSep(spec)
    ensures Colons(spec) == spec
    decreases |spec|
  {
    if spec != "" {
      assert spec == [spec[0]] + spec[1..];
      NoSepNoChange(spec[1..]);
    }
  }

  /** Registering names that a specification does not mention does not change what it does. */
  lemma OthersUnaffected(before: Entries, after: Entries, above: seq<Entries>, spec: string)
    requires CleanNames([before] + above) && CleanNames([after] + above)
    requires forall name :: name in after.Keys && (name !in before || before[name] != after[name])
               ==> name != spec && name !in Names(spec)
    requires before.Keys <= after.Keys
    ensures Flat(Resolve([before] + above, spec)) == Flat(Resolve([after] + above, spec))
  {
    ResolveIsFlat([before] + above, spec);
    ResolveIsFlat([after] + above, spec);
    if HasSep(spec) {
      AtomsUnaffected(before, after, above, Names(spec));
    } else {
      AtomUnaffected(before, after, above, spec);
    }
  }

  lemma AtomUnaffected(before: Entries, after: Entries, above: seq<Entries>, name: string)
    requires before.Keys <= after.Keys
    requires name in after.Keys ==> name in before && before[name] == after[name]
    ensures AtomOf([before] + above, name) == AtomOf([after] + above, name)
  {
    assert ([before] + above)[1..] == above && ([after] + above)[1..] == above;
  }

  lemma {:induction false} AtomsUnaffected(before: Entries, after: Entries, above: seq<Entries>, names: seq<string>)
    requires before.Keys <= after.Keys
    requires forall name :: name in names && name in after.Keys ==> name in before && before[name] == after[name]
    ensures AtomsOf([before] + above, names) == AtomsOf([after] + above, names)
    decreases |names|
  {
    if names != [] {
      AtomUnaffected(before, after, above, names[0]);
      AtomsUnaffected(before, after, above, names[1..]);
    }
  }

  // ---------- Children of a registry ----------

  function Cut(spec: string): (parts: seq<string>)
    requires HasSep(spec)
    ensures forall i :: 0 <= i < |parts| ==> |parts[i]| < |spec|
  {
    SplitOn(spec, if ':' in spec then ':' else '|')
  }

  /** Cutting the specification and its pieces, one meets one of these names on the way. */
  predicate Clashes(own: Entries, spec: string)
    decreases |spec|, 1
  {
    HasSep(spec) && (spec in own || AnyClashes(own, Cut(spec), |spec|))
  }

  predicate AnyClashes(own: Entries, parts: seq<string>, bound: nat)
    requires forall i :: 0 <= i < |parts| ==> |parts[i]| < bound
    decreases bound, 0, |parts|
  {
    parts != [] && (Clashes(own, Trim(parts[0])) || AnyClashes(own, parts[1..], bound))
  }

  /** A new child of a registry resolves a specification as its parent does if and only if the
      parent cannot or no own name of the parent's stands in the way of cutting it. */
  lemma {:induction false} ChildResolvesExactly(layers: seq<Entries>, spec: string)
    requires layers != []
    ensures Resolve(layers, spec).None? ==> Resolve([map[]] + layers, spec).None?
    ensures Resolve([map[]] + layers, spec) == Resolve(layers, spec) <==>
            Resolve(layers, spec).None? || !Clashes(layers[0], spec)
    decreases |spec|, 1
  {
    var child := [map[]] + layers;
    assert child[1..] == layers;
    if spec != "" && spec != "bytes" && HasSep(spec) {
      var parts := Cut(spec);
      assert Resolve(child, spec) == ResolveParts(child, parts, |spec|);
      if spec !in layers[0] {
        assert Resolve(layers, spec) == ResolveParts(layers, parts, |spec|);
        ChildResolvesParts(layers, parts, |spec|);
      }
    }
  }

  lemma {:induction false} ChildResolvesParts(layers: seq<Entries>, parts: seq<string>, bound: nat)
    requires layers != [] && forall i :: 0 <= i < |parts| ==> |parts[i]| < bound
    ensures ResolveList(layers, parts, bound).None? ==> ResolveList([map[]] + layers, parts, bound).None?
    ensures ResolveList([map[]] + layers, parts, bound) == ResolveList(layers, parts, bound) <==>
            ResolveList(layers, parts, bound).None? || !AnyClashes(layers[0], parts, bound)
    decreases bound, 0, |parts|
  {
    if parts != [] {
      var child := [map[]] + layers;
      ChildResolvesExactly(layers, Trim(parts[0]));
      ChildResolvesParts(layers, parts[1..], bound);
      SameListing(Resolve(layers, Trim(parts[0])), ResolveList(layers, parts[1..], bound),
                  Resolve(child, Trim(parts[0])), ResolveList(child, parts[1..], bound));
    }
  }

  function Listing(f: Option<Formatter>, fs: Option<seq<Formatter>>): Option<seq<Formatter>> {
    if f.Some? && fs.Some? then Some([f.value] + fs.value) else None
  }

  lemma SameListing(f: Option<Formatter>, fs: Option<seq<Formatter>>, g: Option<Formatter>, gs: Option<seq<Formatter>>)
    ensures f.Some? && fs.Some? ==> (Listing(g, gs) == Listing(f, fs) <==> g == f && gs == fs)
  {
    if f.Some? && fs.Some? && g.Some? && gs.Some? {
      var x, y := [f.value] + fs.value, [g.value] + gs.value;
      assert x[0] == f.value && x[1..] == fs.value && y[0] == g.value && y[1..] == gs.value;
    }
  }

  /** A name with a separator in it is out of reach of every new child. */
  lemma SeparatedNamesAreHidden(layers: seq<Entries>, name: string)
    requires layers != [] && name in layers[0] && HasSep(name)
    ensures Resolve(layers, name) == Some(Atomic(layers[0][name])) != Resolve([map[]] + layers, name)
  {
    assert name != "" && name != "bytes";
    ChildResolvesExactly(layers, name);
  }

  // ---------- Lists of names ----------

  /** A list of names is the pipeline that a specification joined from them is. */
  function Joined(names: seq<string>): string
    requires names != []
    decreases |names|
  {
    if |names| == 1 then names[0] else names[0] + ":" + Joined(names[1..])
  }

  lemma {:induction false} SplitSepsJoin(a: string, c: char, b: string)
    requires IsSep(c)
    ensures SplitSeps(a + [c] + b) == SplitSeps(a) + SplitSeps(b)
    decreases |a|
  {
    var s := a + [c] + b;
    if a == "" {
      assert s == [c] + b && s[1..] == b;
    } else {
      assert s[0] == a[0] && s[1..] == a[1..] + [c] + b;
      SplitSepsJoin(a[1..], c, b);
      PrependAppend(a[0], SplitSeps(a[1..]), SplitSeps(b));
    }
  }

  lemma {:induction false} NamesOfJoined(names: seq<string>)
    requires names != []
    ensures Names(Joined(names)) == NamesOfAll(names)
    decreases |names|
  {
    if |names| == 1 {
      assert names[1..] == [] && Names(names[0]) + [] == Names(names[0]);
    } else {
      NamesOfJoined(names[1..]);
      SplitSepsJoin(names[0], ':', Joined(names[1..]));
      TrimAllAppend(SplitSeps(names[0]), SplitSeps(Joined(names[1..])));
    }
  }

  lemma ListsAreFlat(layers: seq<Entries>, names: seq<string>)
    requires layers != [] && CleanNames(layers)
    ensures Flat(ResolveMany(layers, names)) == AtomsOf(layers, NamesOfAll(names))
  {
    if names != [] { ResolveListIsFlat(layers, names, Beyond(names)); }
  }

  /** `get` of a list acts as `get` of the names joined by colons. */
  lemma ListsArePipelines(layers: seq<Entries>, names: seq<string>, b: Data)
    requires layers != [] && CleanNames(layers) && |names| > 1
    ensures var f, g := ResolveMany(layers, names), Resolve(layers, Joined(names));
            && (f.Some? <==> g.Some?)
            && (f.Some? ==> Encode(f.value, b) == Encode(g.value, b) && Decode(f.value, b) == Decode(g.value, b))
  {
    ListsAreFlat(layers, names);
    NamesOfJoined(names);
    ResolveIsFlat(layers, Joined(names));
    assert HasSep(Joined(names)) by {
      assert Joined(names)[|names[0]|] == ':';
    }
    var f, g := ResolveMany(layers, names), Resolve(layers, Joined(names));
    if f.Some? {
      ActsAsFlat(f.value, b);
      ActsAsFlat(g.value, b);
    }
  }
}
