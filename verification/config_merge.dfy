/** The algebra of deep merging, and the exact condition under which layers can be merged in
    either grouping. */
module ConfigMerge {
  import opened Wrappers
  import opened ConfigSpec

  lemma MergeEmpty(t: Tree)
    requires t.Node?
    ensures Merge(Node(map[]), t) == t && Merge(t, Node(map[])) == t
  {
  }

  /** A plain value of `b` strictly above the path hides whatever was there before. */
  ghost predicate CutBy(b: Tree, path: Path)
    decreases |path|
  {
    path != [] && (b.Leaf? || (path[0] in b.kids && CutBy(b.kids[path[0]], path[1..])))
  }

  ghost function Combine(x: Option<Tree>, y: Option<Tree>, cut: bool): Option<Tree> {
    match (x, y)
    case (Some(s), Some(t)) => Some(Merge(s, t))
    case (None, Some(t)) => Some(t)
    case (_, None) => if cut then None else x
  }

  /** What a merged tree holds at a path depends on the first tree only at that path. */
  lemma {:induction false} LookupMerge(a: Tree, b: Tree, path: Path)
    ensures Lookup(Merge(a, b), path) == Combine(Lookup(a, path), Lookup(b, path), CutBy(b, path))
    decreases |path|
  {
    if path != [] && a.Node? && b.Node? {
      if path[0] in a.kids && path[0] in b.kids {
        LookupMerge(a.kids[path[0]], b.kids[path[0]], path[1..]);
      } else if path[0] in b.kids {
        LookupCut(b.kids[path[0]], path[1..]);
      }
    } else if path != [] && b.Node? {
      LookupCut(b, path);
    }
  }

  lemma {:induction false} LookupCut(b: Tree, path: Path)
    ensures CutBy(b, path) ==> Lookup(b, path) == None
    decreases |path|
  {
    if path != [] && b.Node? && path[0] in b.kids { LookupCut(b.kids[path[0]], path[1..]); }
  }

  /** `c` leaves nothing of `a` visible: every key of `a` is in `c`, and so on downwards. */
  ghost predicate Covers(c: Tree, a: Tree)
    decreases a
  {
    c.Leaf? || a.Leaf? || forall k :: k in a.kids ==> k in c.kids && Covers(c.kids[k], a.kids[k])
  }

  lemma {:induction false} CoversMeansOverridden(a: Tree, c: Tree)
    ensures Covers(c, a) <==> Merge(a, c) == c
    decreases a
  {
    if a.Node? && c.Node? {
      forall k | k in a.kids && k in c.kids
        ensures Covers(c.kids[k], a.kids[k]) <==> Merge(a.kids[k], c.kids[k]) == c.kids[k]
      {
        CoversMeansOverridden(a.kids[k], c.kids[k]);
      }
      var m := Merge(a, c);
      assert m.kids.Keys == a.kids.Keys + c.kids.Keys;
      if Covers(c, a) {
        forall k | k in m.kids ensures k in c.kids && m.kids[k] == c.kids[k] {}
        assert m.kids == c.kids;
      }
      if m == c {
        forall k | k in a.kids ensures k in c.kids && Covers(c.kids[k], a.kids[k]) {
          assert k in m.kids;
        }
      }
    }
  }

  /** At every path where a plain value of `b` separates a mapping of `a` from a mapping of
      `c`, the mapping of `c` covers that of `a`. */
  ghost predicate Regroups(a: Tree, b: Tree, c: Tree)
    decreases c
  {
    a.Node? && c.Node? ==>
      if b.Leaf? then Covers(c, a)
      else forall k :: k in a.kids && k in b.kids && k in c.kids ==> Regroups(a.kids[k], b.kids[k], c.kids[k])
  }

  lemma {:induction false} RegroupsExactly(a: Tree, b: Tree, c: Tree)
    ensures Merge(Merge(a, b), c) == Merge(a, Merge(b, c)) <==> Regroups(a, b, c)
    decreases c
  {
    if a.Node? && c.Node? {
      if b.Leaf? {
        CoversMeansOverridden(a, c);
      } else {
        var left, right := Merge(Merge(a, b), c), Merge(a, Merge(b, c));
        assert left.kids.Keys == a.kids.Keys + b.kids.Keys + c.kids.Keys == right.kids.Keys;
        forall k | k in left.kids
          ensures left.kids[k] == right.kids[k] <==>
                  (k in a.kids && k in b.kids && k in c.kids ==> Regroups(a.kids[k], b.kids[k], c.kids[k]))
        {
          if k in a.kids && k in b.kids && k in c.kids { RegroupsExactly(a.kids[k], b.kids[k], c.kids[k]); }
        }
        if Regroups(a, b, c) { assert left.kids == right.kids; }
        if left == right {
          forall k | k in a.kids && k in b.kids && k in c.kids ensures Regroups(a.kids[k], b.kids[k], c.kids[k]) {
            assert k in left.kids;
          }
        }
      }
    }
  }

  /** `b` is a plain value where both `a` and `c` are mappings. */
  ghost predicate Separates(a: Tree, b: Tree, c: Tree, path: Path) {
    && Lookup(a, path).Some? && Lookup(a, path).value.Node?
    && Lookup(b, path).Some? && Lookup(b, path).value.Leaf?
    && Lookup(c, path).Some? && Lookup(c, path).value.Node?
  }

  /** The same condition spelled out over paths. */
  lemma {:induction false} RegroupsByPath(a: Tree, b: Tree, c: Tree)
    ensures Regroups(a, b, c) <==>
            forall path :: Separates(a, b, c, path) ==> Covers(Lookup(c, path).value, Lookup(a, path).value)
    decreases c
  {
    if a.Node? && c.Node? && b.Node? {
      forall k | k in a.kids && k in b.kids && k in c.kids {
        RegroupsByPath(a.kids[k], b.kids[k], c.kids[k]);
      }
      if Regroups(a, b, c) {
        forall path | Separates(a, b, c, path) ensures Covers(Lookup(c, path).value, Lookup(a, path).value) {
          assert Separates(a.kids[path[0]], b.kids[path[0]], c.kids[path[0]], path[1..]);
        }
      }
      if forall path :: Separates(a, b, c, path) ==> Covers(Lookup(c, path).value, Lookup(a, path).value) {
        forall k | k in a.kids && k in b.kids && k in c.kids ensures Regroups(a.kids[k], b.kids[k], c.kids[k]) {
          forall path | Separates(a.kids[k], b.kids[k], c.kids[k], path)
            ensures Covers(Lookup(c.kids[k], path).value, Lookup(a.kids[k], path).value)
          {
            var longer := [k] + path;
            assert longer[1..] == path;
            assert Separates(a, b, c, longer);
          }
        }
      }
    } else if a.Node? && c.Node? {
      if forall path :: Separates(a, b, c, path) ==> Covers(Lookup(c, path).value, Lookup(a, path).value) {
        assert Separates(a, b, c, []);
      }
      forall path | Separates(a, b, c, path) ensures path == [] {}
    } else {
      forall path ensures !Separates(a, b, c, path) {
        if path == [] {}
      }
    }
  }

  /** Layered overriding: merging b and then c into a is the same as merging b-with-c into a
      if and only if, wherever a plain value of b separates mappings of a and c, c covers a. */
  lemma LayeringExactly(a: Tree, b: Tree, c: Tree)
    ensures Merge(Merge(a, b), c) == Merge(a, Merge(b, c)) <==>
            forall path :: Separates(a, b, c, path) ==> Covers(Lookup(c, path).value, Lookup(a, path).value)
  {
    RegroupsExactly(a, b, c);
    RegroupsByPath(a, b, c);
  }

  /** Grouping does matter: a = {k: {x: v}}, b = {k: v}, c = {k: {}}. */
  lemma GroupingMatters(v: Scalar)
    ensures var a := Node(map["k" := Node(map["x" := Leaf(v)])]);
            var b := Node(map["k" := Leaf(v)]);
            var c := Node(map["k" := Node(map[])]);
            Merge(Merge(a, b), c) != Merge(a, Merge(b, c))
  {
    var a := Node(map["k" := Node(map["x" := Leaf(v)])]);
    var b := Node(map["k" := Leaf(v)]);
    var c := Node(map["k" := Node(map[])]);
    assert !Covers(c.kids["k"], a.kids["k"]) by {
      assert "x" in a.kids["k"].kids;
    }
    assert !Regroups(a.kids["k"], b.kids["k"], c.kids["k"]);
    RegroupsExactly(a, b, c);
  }

  /** Merging the same layer twice is merging it once. */
  lemma MergeTwice(a: Tree, b: Tree)
    ensures Merge(Merge(a, b), b) == Merge(a, b)
  {
    LayeringExactly(a, b, b);
    CoversItself(b);
    CoversMeansOverridden(b, b);
  }

  lemma {:induction false} CoversItself(t: Tree)
    ensures Covers(t, t)
    decreases t
  {
    if t.Node? {
      forall k | k in t.kids ensures Covers(t.kids[k], t.kids[k]) { CoversItself(t.kids[k]); }
    }
  }
}
