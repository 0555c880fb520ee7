/** Dotted writes are nested merges, read back what they wrote, and touch nothing else; and
    raw sources that do not contradict themselves merge as the trees they normalise to. */
module ConfigWrite {
  import opened Wrappers
  import opened Text
  import opened ConfigSpec
  import opened ConfigMerge

  // ---------- Keys as strings ----------

  /** A segment that `__setitem__` takes literally. */
  ghost predicate PlainName(s: string) {
    '.' !in s && '/' !in s && '!' !in s
  }

  ghost predicate PlainPath(path: Path) {
    path != [] && forall i :: 0 <= i < |path| ==> PlainName(path[i])
  }

  ghost function Join(path: Path): string
    requires path != []
    decreases |path|
  {
    if |path| == 1 then path[0] else path[0] + "." + Join(path[1..])
  }

  lemma SplitOnHead(h: char, s: string)
    requires h != '.'
    ensures SplitOn([h] + s, '.') == [[h] + SplitOn(s, '.')[0]] + SplitOn(s, '.')[1..]
  {
    assert ([h] + s)[1..] == s;
  }

  lemma {:induction false} SplitOnName(s: string, rest: string)
    requires '.' !in s
    ensures SplitOn(s, '.') == [s]
    ensures SplitOn(s + "." + rest, '.') == [s] + SplitOn(rest, '.')
    decreases |s|
  {
    if s == [] {
      assert "" + "." + rest == "." + rest;
      assert ("." + rest)[1..] == rest;
    } else {
      hide SplitOn;
      var h, t := s[0], s[1..];
      SplitOnName(t, rest);
      assert s == [h] + t && s + "." + rest == [h] + (t + "." + rest);
      SplitOnHead(h, t);
      SplitOnHead(h, t + "." + rest);
    }
  }

  lemma {:induction false} JoinContents(path: Path)
    requires PlainPath(path)
    ensures '/' !in Join(path) && '!' !in Join(path) && ('.' in Join(path) <==> |path| > 1)
    decreases |path|
  {
    if |path| > 1 {
      JoinContents(path[1..]);
      assert Join(path)[|path[0]|] == '.';
    }
  }

  lemma {:induction false} SplitJoin(path: Path)
    requires PlainPath(path)
    ensures SplitOn(Join(path), '.') == path
    decreases |path|
  {
    if |path| == 1 {
      SplitOnName(path[0], "");
    } else {
      SplitJoin(path[1..]);
      SplitOnName(path[0], Join(path[1..]));
      assert [path[0]] + path[1..] == path;
    }
  }

  /** The dotted spelling of a path is read back as that path. */
  lemma ParseJoin(path: Path)
    requires PlainPath(path)
    ensures ParseKey(Join(path)) == Key(path, false)
  {
    JoinContents(path);
    SplitJoin(path);
    if |path| == 1 { assert [Join(path)] == path; }
  }

  // ---------- Writing is merging ----------

  ghost function Nest(path: Path, u: Tree): Tree
    decreases |path|
  {
    if path == [] then u else Node(map[path[0] := Nest(path[1..], u)])
  }

  /** The nested mapping {k1: {... {kn: v}}}, as a raw source. */
  ghost function NestSource(path: Path, src: Source): Source
    decreases |path|
  {
    if path == [] then src else Dict([Pair(path[0], NestSource(path[1..], src))])
  }

  lemma MergeSingleton(m: Kids, k: string, t: Tree)
    ensures Merge(Node(m), Node(map[k := t])) == Node(m[k := if k in m then Merge(m[k], t) else t])
  {
    var right := m[k := if k in m then Merge(m[k], t) else t];
    var left := Merge(Node(m), Node(map[k := t])).kids;
    assert left.Keys == right.Keys;
    assert forall j :: j in left ==> left[j] == right[j];
    assert left == right;
  }

  /** `__setitem__` with a dotted key and a `MergeDict` is merging the nested tree. */
  lemma {:induction false} PathTreeIsMerge(m: Kids, path: Path, u: Tree)
    requires path != []
    ensures Node(PathTree(m, path, u)) == Merge(Node(m), Nest(path, u))
    decreases |path|
  {
    var inner := Nest(path[1..], u);
    MergeSingleton(m, path[0], inner);
    if |path| > 1 {
      PathTreeIsMerge(Child(m, path[0]), path[1..], u);
      if path[0] !in m || m[path[0]].Leaf? { MergeEmpty(inner); }
    }
  }

  lemma UpdateOne(m: Kids, pair: Pair)
    ensures Update(m, [pair]) == SetItem(m, pair.key, pair.value)
  {
    assert [pair][1..] == [];
  }

  lemma InitOne(m: Kids, pair: Pair)
    ensures Init(m, [pair]) == SetTree(m, pair.key, Fresh(pair.value))
  {
    assert [pair][1..] == [];
  }

  /** Writing below a key that is not there yet is copying the nested mapping. */
  lemma {:induction false} SetPathFresh(path: Path, src: Source)
    requires PlainPath(path)
    ensures Node(SetPath(map[], path, false, src)) == Fresh(NestSource(path, src))
    decreases |path|
  {
    var inner := NestSource(path[1..], src);
    InitOne(map[], Pair(path[0], inner));
    ParseJoin([path[0]]);
    if |path| > 1 { SetPathFresh(path[1..], src); }
  }

  /** Writing a dotted path is updating with the nested mapping, whatever was there before,
      plain values on the path included, and whatever the value is. */
  lemma {:induction false} DottedWriteIsNestedUpdate(m: Kids, path: Path, src: Source)
    requires PlainPath(path)
    ensures SetPath(m, path, false, src) == Update(m, NestSource(path, src).items)
    decreases |path|
  {
    var inner := NestSource(path[1..], src);
    UpdateOne(m, Pair(path[0], inner));
    ParseJoin([path[0]]);
    if |path| > 1 {
      if path[0] in m && m[path[0]].Node? {
        DottedWriteIsNestedUpdate(m[path[0]].kids, path[1..], src);
      } else {
        SetPathFresh(path[1..], src);
      }
    }
  }

  /** The same for the key as the caller spells it. */
  lemma DottedKeyIsNestedUpdate(m: Kids, path: Path, src: Source)
    requires PlainPath(path)
    ensures SetItem(m, Join(path), src) == Update(m, NestSource(path, src).items)
  {
    ParseJoin(path);
    DottedWriteIsNestedUpdate(m, path, src);
    if |path| == 1 { assert SetPath(m, path, false, src) == Assign(m, path[0], false, src); }
  }

  // ---------- Reading back ----------

  ghost predicate Incomparable(p: Path, q: Path) {
    !(p <= q) && !(q <= p)
  }

  lemma IncomparableTails(p: Path, q: Path)
    requires p != [] && q != [] && p[0] == q[0] && Incomparable(p, q)
    ensures Incomparable(p[1..], q[1..])
  {
    assert p == [p[0]] + p[1..] && q == [q[0]] + q[1..];
  }

  /** A written plain value is read back, and no path that is neither prefix nor extension of
      the written one reads differently, whatever was written. */
  lemma {:induction false} SetPathWrites(m: Kids, path: Path, replace: bool, src: Source, q: Path)
    requires path != []
    ensures src.Plain? ==> Lookup(Node(SetPath(m, path, replace, src)), path) == Some(Leaf(src.value))
    ensures Incomparable(path, q) ==> Lookup(Node(SetPath(m, path, replace, src)), q) == Lookup(Node(m), q)
    decreases |path|
  {
    var t := SetPath(m, path, replace, src);
    if |path| == 1 {
      assert path[1..] == [];
      assert q != [] && q[0] == path[0] ==> path <= q;
    } else {
      var child := Child(m, path[0]);
      SetPathWrites(child, path[1..], replace, src, if q == [] then [] else q[1..]);
      if Incomparable(path, q) && q[0] == path[0] {
        IncomparableTails(path, q);
      }
    }
  }

  /** The same for `__setitem__` and `__getitem__` with the key as the caller spells it. */
  lemma WriteReadsBack(m: Kids, path: Path, src: Source, q: Path)
    requires PlainPath(path)
    ensures src.Plain? ==> GetItem(Node(SetItem(m, Join(path), src)), Join(path)) == Found(Leaf(src.value))
    ensures Incomparable(path, q) ==> Lookup(Node(SetItem(m, Join(path), src)), q) == Lookup(Node(m), q)
  {
    ParseJoin(path);
    JoinContents(path);
    SplitJoin(path);
    SetPathWrites(m, path, false, src, q);
    WalkFinds(Node(SetItem(m, Join(path), src)), path);
    if |path| == 1 {
      assert SetPath(m, path, false, src) == Assign(m, path[0], false, src);
      assert [Join(path)] == path;
    }
  }

  /** Reading along a path finds what is there, and fails exactly when nothing is. */
  lemma {:induction false} WalkFinds(t: Tree, path: Path)
    ensures match Walk(t, path)
            case Found(u) => Lookup(t, path) == Some(u)
            case _ => Lookup(t, path) == None
    decreases |path|
  {
    if path != [] && t.Node? && path[0] in t.kids { WalkFinds(t.kids[path[0]], path[1..]); }
  }

  /** How far along a path the lookup gets. */
  ghost predicate StopsAt(t: Tree, path: Path, i: nat, u: Tree) {
    i < |path| && Lookup(t, path[..i]) == Some(u) && (u.Node? ==> path[i] !in u.kids)
  }

  /** Where reading stops short of the end of the path, a mapping that lacks the next key makes
      it raise `KeyError`, and a plain value `TypeError`. */
  lemma {:induction false} WalkFailsExactly(t: Tree, path: Path, i: nat, u: Tree)
    requires StopsAt(t, path, i, u)
    ensures Walk(t, path) == if u.Node? then KeyError else TypeError
    decreases |path|
  {
    if i == 0 {
      assert path[..0] == [];
    } else {
      assert path[..i][0] == path[0] && path[..i][1..] == path[1..][..i - 1];
      assert t.Node? && path[0] in t.kids;
      WalkFailsExactly(t.kids[path[0]], path[1..], i - 1, u);
    }
  }

  /** An undotted key with `!` replaces: the new value stands as it was handed over. */
  lemma ReplaceReplaces(m: Kids, k: string, src: Source)
    requires PlainName(k)
    ensures SetItem(m, k + "!", src) == m[k := Fresh(src)]
  {
    assert (k + "!")[..|k|] == k;
    StripNothing(k);
    assert StripRight(k + "!", '!') == StripRight(k, '!');
  }

  lemma StripNothing(k: string)
    requires '!' !in k
    ensures StripRight(k, '!') == k && StripLeft(k, '!') == k
  {
  }

  /** So it does with a `MergeDict`, and hence within data that are being normalised. */
  lemma ReplaceReplacesTree(m: Kids, k: string, u: Tree, src: Source, rest: seq<Pair>)
    requires PlainName(k)
    ensures SetTree(m, k + "!", u) == m[k := u]
    ensures Init(m, [Pair(k + "!", src)] + rest) == Init(m[k := Fresh(src)], rest)
  {
    hide Fresh;
    assert (k + "!")[..|k|] == k;
    StripNothing(k);
    assert StripRight(k + "!", '!') == StripRight(k, '!');
    var items := [Pair(k + "!", src)] + rest;
    assert items[0] == Pair(k + "!", src) && items[1..] == rest;
  }

  lemma {:induction false} StripBangs(s: string)
    requires '!' !in s
    ensures StripLeft(StripRight("!" + s + "!", '!'), '!') == s
    ensures StripLeft(StripRight(s + "!", '!'), '!') == s
  {
    StripNothing(s);
    var both := "!" + s + "!";
    assert both[..|both| - 1] == "!" + s && (s + "!")[..|s|] == s;
    if s == "" {
      assert "!" + s == "!" && "!"[..0] == "" && "!"[1..] == "";
    } else {
      assert ("!" + s)[|s|] == s[|s| - 1] && ("!" + s)[1..] == s;
    }
  }

  lemma SplitOrNot(path: Path)
    requires PlainPath(path)
    ensures (if '.' in Join(path) && '/' !in Join(path) then SplitOn(Join(path), '.') else [Join(path)]) == path
  {
    JoinContents(path);
    SplitJoin(path);
    if |path| == 1 { assert [Join(path)] == path; }
  }

  /** A final `!` asks for replacement and goes, with any in front; ... */
  lemma BangsAreStripped(path: Path)
    requires PlainPath(path)
    ensures ParseKey(Join(path) + "!") == Key(path, true) == ParseKey("!" + Join(path) + "!")
  {
    hide SplitOn, StripLeft, StripRight, PlainPath, Join;
    SplitOrNot(path);
    JoinContents(path);
    StripBangs(Join(path));
    var one, two := Join(path) + "!", "!" + Join(path) + "!";
    assert one[|one| - 1] == '!' && two[|two| - 1] == '!';
    assert EndsWith(one, '!') && EndsWith(two, '!');
  }

  /** ... one in front alone belongs to the name. */
  lemma BangInFrontStays(name: string)
    requires PlainName(name) && name != ""
    ensures ParseKey("!" + name) == Key(["!" + name], false)
  {
    hide SplitOn, StripLeft, StripRight;
    var raw := "!" + name;
    assert raw[|raw| - 1] == name[|name| - 1] && name[|name| - 1] in name;
    assert !EndsWith(raw, '!') && '.' !in raw;
  }

  lemma {:induction false} BangPathMerges(m: Kids, path: Path, src: Source)
    requires path != [] && src.Dict?
    ensures SetPath(m, path, true, src) == PathTree(m, path, Fresh(src))
    decreases |path|
  {
    if |path| > 1 { BangPathMerges(Child(m, path[0]), path[1..], src); }
  }

  /** A dotted key with `!` does not replace a mapping: what it writes is merged in. */
  lemma DottedBangMerges(m: Kids, path: Path, src: Source)
    requires PlainPath(path) && |path| > 1 && src.Dict?
    ensures Node(SetItem(m, Join(path) + "!", src)) == Merge(Node(m), Nest(path, Fresh(src)))
  {
    BangsAreStripped(path);
    BangPathMerges(m, path, src);
    PathTreeIsMerge(m, path, Fresh(src));
  }

  // ---------- Writes that raise ----------

  ghost predicate Writable(p: Pair) {
    Spelled(p.key) && SpelledSource(p.value)
  }

  lemma BrokenWrites(m: Kids, p: Pair, rest: seq<Pair>)
    requires Writable(p)
    ensures Broken(m, [p] + rest) == Broken(SetItem(m, p.key, p.value), rest)
  {
    hide SetItem, BrokenPath, BrokenAssign, Spelled, SpelledSource;
    assert ([p] + rest)[0] == p && ([p] + rest)[1..] == rest;
  }

  lemma BrokenStops(m: Kids, bad: Pair, rest: seq<Pair>)
    requires !Writable(bad)
    ensures Broken(m, [bad] + rest) == Broken(m, [bad])
  {
    hide SetItem, BrokenPath, BrokenAssign, Spelled, SpelledSource;
    assert ([bad] + rest)[0] == bad == [bad][0];
  }

  /** Of a load that raises, the entries before the one that cannot be written are written and
      those after it are not. */
  lemma {:induction false} BrokenAtEntry(m: Kids, before: seq<Pair>, bad: Pair, after: seq<Pair>)
    requires SpelledItems(before) && !Writable(bad)
    ensures Broken(m, before + [bad] + after) == Broken(Update(m, before), [bad])
    decreases |before|
  {
    hide Broken, SetItem, Spelled, SpelledSource;
    if before == [] {
      assert before + [bad] + after == [bad] + after;
      BrokenStops(m, bad, after);
    } else {
      var p, rest := before[0], before[1..] + [bad] + after;
      assert before == [p] + before[1..];
      assert before + [bad] + after == [p] + rest;
      BrokenWrites(m, p, rest);
      BrokenAtEntry(SetItem(m, p.key, p.value), before[1..], bad, after);
    }
  }

  lemma BrokenPathStays(m: Kids, path: Path, replace: bool, src: Source, k: string)
    requires path != [] && k != path[0] && k != ParseKey(path[0]).path[0]
    ensures var u := BrokenPath(m, path, replace, src); (k in u <==> k in m) && (k in m ==> u[k] == m[k])
  {
    hide ParseKey, Stored, Broken;
  }

  /** The entry itself leaves no trace outside the mapping its first segment names. */
  lemma BrokenStaysBelow(m: Kids, bad: Pair, k: string)
    requires !Writable(bad) && k != ParseKey(ParseKey(bad.key).path[0]).path[0] && k != ParseKey(bad.key).path[0]
    ensures var u := Broken(m, [bad]); (k in u <==> k in m) && (k in m ==> u[k] == m[k])
  {
    hide ParseKey, Spelled, SpelledSource, BrokenPath, BrokenAssign, SetItem;
    var key := ParseKey(bad.key);
    BrokenPathStays(m, key.path, key.replace, bad.value, k);
    BrokenPathStays(m, [key.path[0]], key.replace, bad.value, k);
    OneSegment(m, key.path[0], key.replace, bad.value);
  }

  lemma OneSegment(m: Kids, k: string, replace: bool, src: Source)
    ensures BrokenPath(m, [k], replace, src) == BrokenAssign(m, k, replace, src)
  {
    hide BrokenAssign;
  }

  ghost function BrokenAt(t: Option<Tree>, replace: bool, items: seq<Pair>): Option<Tree> {
    if t.Some? && t.value.Node? && !replace then Some(Node(Broken(t.value.kids, items))) else t
  }

  lemma {:induction false} BrokenPathBelow(m: Kids, path: Path, replace: bool, items: seq<Pair>)
    requires PlainPath(path)
    ensures Lookup(Node(BrokenPath(m, path, replace, Dict(items))), path) ==
            BrokenAt(Lookup(Node(m), path), replace, items)
    decreases |path|
  {
    hide Broken, ParseKey;
    ParseJoin([path[0]]);
    if |path| == 1 {
      assert path[1..] == [];
    } else {
      BrokenPathBelow(Child(m, path[0]), path[1..], replace, items);
    }
  }

  /** Below a key whose mapping cannot be loaded, a mapping that is there has what could be
      loaded before the failure, and anything else stays as it is. */
  lemma BrokenBelow(m: Kids, path: Path, items: seq<Pair>)
    requires PlainPath(path) && !SpelledItems(items)
    ensures Lookup(Node(Broken(m, [Pair(Join(path), Dict(items))])), path) ==
            BrokenAt(Lookup(Node(m), path), false, items)
    ensures Lookup(Node(Broken(m, [Pair(Join(path) + "!", Dict(items))])), path) == Lookup(Node(m), path)
  {
    hide BrokenPath, BrokenAssign, ParseKey, SetItem, SpelledItems, Join, PlainPath, Lookup;
    ParseJoin(path);
    BangsAreStripped(path);
    BrokenPathBelow(m, path, false, items);
    BrokenPathBelow(m, path, true, items);
    OneSegment(m, path[0], false, Dict(items));
    OneSegment(m, path[0], true, Dict(items));
    assert |path| == 1 ==> path == [path[0]];
  }
}
