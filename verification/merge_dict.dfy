/** `MergeDict` as it is written: an object whose nested mappings are objects of its own,
    changed in place.  `Valid` is the ownership discipline: the objects below a `MergeDict`
    form a tree, no two branches share one, and `tree` is what they stand for. */
module MergeDicts {
  import opened Text
  import opened ConfigSpec
  import opened ConfigMerge

  datatype Cell = Atom(value: Scalar) | Ref(dict: MergeDict)

  /** A value handed to `__setitem__`: raw, or a `MergeDict` already. */
  datatype Value = Raw(src: Source) | Made(dict: MergeDict)

  predicate IsDict(v: Value) {
    v.Made? || v.src.Dict?
  }

  // Recursion goes from raw dicts to their entries, and from trees to their branches.

  ghost function TreePart(v: Value): Tree
    reads if v.Made? then {v.dict} else {}
  {
    if v.Made? then v.dict.tree
    else if v.src.Plain? then Leaf(v.src.value)
    else Node(map[])
  }

  ghost function Kind(v: Value): nat {
    if v.Raw? && v.src.Dict? then 1 else 0
  }

  ghost function RawRank(v: Value): Source {
    if v.Raw? && v.src.Dict? then v.src else Dict([])
  }

  // What each operation makes of the mapping, for both kinds of value.

  ghost function AssignValue(m: Kids, k: string, replace: bool, v: Value): Kids
    reads if v.Made? then {v.dict} else {}
  {
    if v.Made? then AssignTree(m, k, replace, v.dict.tree) else Assign(m, k, replace, v.src)
  }

  ghost function PathValue(m: Kids, path: Path, replace: bool, v: Value): Kids
    requires path != []
    reads if v.Made? then {v.dict} else {}
  {
    if v.Made? then PathTree(m, path, v.dict.tree) else SetPath(m, path, replace, v.src)
  }

  ghost function SetValue(m: Kids, key: string, v: Value): Kids
    reads if v.Made? then {v.dict} else {}
  {
    if v.Made? then SetTree(m, key, v.dict.tree) else SetItem(m, key, v.src)
  }

  ghost function UpdateValue(t: Tree, v: Value): Tree
    requires t.Node? && IsDict(v)
    reads if v.Made? then {v.dict} else {}
  {
    if v.Made? then Merge(t, v.dict.tree) else Node(Update(t.kids, v.src.items))
  }

  /** An entry of a plain dict that may hold `MergeDict` objects among its values. */
  datatype Entry = Entry(key: string, value: Value)

  ghost function DictsOf(entries: seq<Entry>): set<MergeDict> {
    set e | e in entries && e.value.Made? :: e.value.dict
  }

  ghost function SetValues(m: Kids, entries: seq<Entry>): Kids
    reads DictsOf(entries)
    decreases |entries|
  {
    if entries == [] then m
    else
      assert entries[0] in entries && forall e :: e in entries[1..] ==> e in entries;
      SetValues(SetValue(m, entries[0].key, entries[0].value), entries[1..])
  }

  lemma PathOfMore(m: Kids, path: Path, replace: bool, v: Value)
    requires |path| > 1
    ensures var entered := m[path[0] := Node(Child(m, path[0]))];
            PathValue(m, path, replace, v) ==
            entered[path[0] := Node(PathValue(entered[path[0]].kids, path[1..], replace, v))]
  {
  }

  /** At the last segment `!` only means that a raw dict is copied before it is assigned. */
  lemma PathOfOne(m: Kids, k: string, replace: bool, v: Value)
    ensures PathValue(m, [k], replace, v) ==
            if replace && IsDict(v) then AssignTree(m, k, false, FreshValue(v)) else AssignValue(m, k, false, v)
  {
  }

  /** The copy `type(self)(value)`. */
  ghost function FreshValue(v: Value): Tree
    reads if v.Made? then {v.dict} else {}
  {
    if v.Made? then v.dict.tree else Fresh(v.src)
  }

  /** Setting a stored key is storing, whatever the kind of value. */
  lemma SetStored(m: Kids, k: string, x: Scalar)
    requires Stored(k)
    ensures SetItem(m, k, Plain(x)) == AssignTree(m, k, false, Leaf(x))
  {
  }

  lemma SetStoredTree(m: Kids, k: string, u: Tree)
    requires Stored(k)
    ensures SetTree(m, k, u) == AssignTree(m, k, false, u)
  {
  }

  /** For a plain value it makes no difference which way it is written. */
  lemma SetItemPlain(m: Kids, key: string, x: Scalar)
    ensures SetItem(m, key, Plain(x)) == SetTree(m, key, Leaf(x))
  {
    SetPathPlain(m, ParseKey(key).path, ParseKey(key).replace, x);
  }

  lemma {:induction false} SetPathPlain(m: Kids, path: Path, replace: bool, x: Scalar)
    requires path != []
    ensures SetPath(m, path, replace, Plain(x)) == PathTree(m, path, Leaf(x))
    decreases |path|
  {
    if |path| > 1 { SetPathPlain(Child(m, path[0]), path[1..], replace, x); }
  }

  /** The entries of a `MergeDict` whose keys are not in a set. */
  ghost function Done(kids: Kids, todo: set<string>): Kids {
    map k | k in kids && k !in todo :: kids[k]
  }

  lemma DoneOneMore(kids: Kids, todo: set<string>, k: string)
    requires k in todo && k in kids
    ensures Done(kids, todo - {k}) == AssignTree(Done(kids, todo), k, false, kids[k])
  {
  }

  lemma MergeOneMore(t: Tree, kids: Kids, todo: set<string>, k: string)
    requires t.Node? && k in todo && k in kids
    ensures Merge(t, Node(Done(kids, todo - {k}))) ==
            Node(AssignTree(Merge(t, Node(Done(kids, todo))).kids, k, false, kids[k]))
  {
    var left := Merge(t, Node(Done(kids, todo - {k}))).kids;
    var right := AssignTree(Merge(t, Node(Done(kids, todo))).kids, k, false, kids[k]);
    assert left.Keys == right.Keys;
    assert forall j :: j in left ==> left[j] == right[j];
    assert left == right;
  }

  lemma DoneNoneOrAll(kids: Kids)
    ensures Done(kids, kids.Keys) == map[] && Done(kids, {}) == kids
  {
  }

  lemma MergeNone(t: Tree, kids: Kids)
    requires t.Node?
    ensures Merge(t, Node(Done(kids, kids.Keys))) == t && Done(kids, {}) == kids
  {
    DoneNoneOrAll(kids);
  }

  lemma MergeSame(t: Tree)
    ensures Merge(t, t) == t
  {
    CoversItself(t);
    CoversMeansOverridden(t, t);
  }

  /** Writing an entry over itself changes nothing. */
  lemma AssignSame(kids: Kids, k: string)
    requires k in kids
    ensures AssignTree(kids, k, false, kids[k]) == kids
  {
    MergeSame(kids[k]);
  }

  lemma WalkStep(t: Tree, path: Path, i: nat)
    requires t.Node? && i < |path|
    ensures Walk(t, path[i..]) == if path[i] in t.kids then Walk(t.kids[path[i]], path[i + 1..]) else KeyError
  {
    assert path[i..][1..] == path[i + 1..];
  }

  lemma WalkEnd(t: Tree, path: Path)
    requires t.Leaf? || path == []
    ensures Walk(t, path) == if path == [] then Found(t) else TypeError
  {
  }

  class MergeDict {
    var items: map<string, Cell>
    ghost var tree: Tree
    ghost var Repr: set<MergeDict>

    ghost predicate Valid()
      reads this, Repr
      decreases Repr
      ensures Valid() ==> this in Repr && tree.Node?
    {
      && this in Repr
      && tree.Node? && tree.kids.Keys == items.Keys
      && (forall k :: k in items ==> Stored(k))
      && (forall k :: k in items && items[k].Atom? ==> tree.kids[k] == Leaf(items[k].value))
      && (forall k :: k in items && items[k].Ref? ==>
            var d := items[k].dict;
            d in Repr && d.Repr <= Repr && this !in d.Repr && d.Valid() && tree.kids[k] == d.tree)
      && (forall j, k :: j in items && k in items && j != k && items[j].Ref? && items[k].Ref? ==>
            items[j].dict.Repr !! items[k].dict.Repr)
    }

    /** `Valid`, but for what this object records about the mapping under `k`, which has
        changed meanwhile. */
    ghost predicate ValidBut(k: string)
      reads this, Repr, if k in items && items[k].Ref? then {items[k].dict} + items[k].dict.Repr else {}
    {
      && this in Repr && k in items && items[k].Ref?
      && tree.Node? && tree.kids.Keys == items.Keys
      && (forall j :: j in items ==> Stored(j))
      && (forall j :: j in items && items[j].Atom? ==> tree.kids[j] == Leaf(items[j].value))
      && this !in items[k].dict.Repr && items[k].dict.Valid()
      && (forall j :: j in items && items[j].Ref? && j != k ==>
            var d := items[j].dict;
            d in Repr && d.Repr <= Repr && this !in d.Repr && d.Valid() && tree.kids[j] == d.tree
            && d.Repr !! items[k].dict.Repr)
      && (forall i, j :: i in items && j in items && i != j && i != k && j != k && items[i].Ref? && items[j].Ref? ==>
            items[i].dict.Repr !! items[j].dict.Repr)
    }

    /** What is left after a nested mapping, and nothing else, has changed in place. */
    twostate lemma KidChanged(k: string)
      requires old(Valid()) && k in items && items[k].Ref? && unchanged(this)
      requires unchanged(old(Repr) - old(items[k].dict.Repr))
      requires items[k].dict.Valid()
      requires forall o :: o in items[k].dict.Repr && old(allocated(o)) ==> o in old(items[k].dict.Repr)
      ensures ValidBut(k)
    {
    }

    /** Bring the ghost record up to date after a nested mapping has changed in place. */
    ghost method Refresh(k: string)
      requires ValidBut(k)
      modifies this`tree, this`Repr
      ensures Valid() && Repr == old(Repr) + items[k].dict.Repr
      ensures tree == Node(old(tree).kids[k := items[k].dict.tree])
    {
      var kid := items[k].dict;
      tree := Node(tree.kids[k := kid.tree]);
      Repr := Repr + kid.Repr;
    }

    /** `MergeDict()` */
    constructor ()
      ensures Valid() && fresh(Repr) && tree == Node(map[])
    {
      items := map[];
      tree := Node(map[]);
      Repr := {this};
    }

    /** `dict.__setitem__` with a plain value. */
    method StoreAtom(k: string, x: Scalar)
      requires Valid() && Stored(k)
      modifies this
      ensures Valid() && Repr == old(Repr) && items == old(items)[k := Atom(x)]
      ensures tree == Node(old(tree).kids[k := Leaf(x)])
    {
      hide Stored;
      items := items[k := Atom(x)];
      tree := Node(tree.kids[k := Leaf(x)]);
    }

    /** `dict.__setitem__` with a `MergeDict` nobody else holds. */
    method StoreDict(k: string, d: MergeDict)
      requires Valid() && Stored(k) && d.Valid() && d.Repr !! Repr
      modifies this
      ensures Valid() && Repr == old(Repr) + d.Repr && items == old(items)[k := Ref(d)]
      ensures tree == Node(old(tree).kids[k := d.tree])
    {
      assert this !in d.Repr && d in d.Repr;
      items := items[k := Ref(d)];
      tree := Node(tree.kids[k := d.tree]);
      Repr := Repr + d.Repr;
    }

    // What may be handed over. A value that is copied may be any valid object; one that is
    // merged in must not be changed by the merging.

    /** What `update` can merge in: this very object, or one that neither contains it nor
        shares anything with the nested mappings that entries of its own are merged into. */
    ghost predicate CanTake(m: MergeDict)
      requires Valid()
      reads this, Repr, m, m.Repr
    {
      && m.Valid()
      && (m == this ||
          (this !in m.Repr &&
           forall k :: k in m.items && m.items[k].Ref? && k in items && items[k].Ref? ==>
             items[k].dict.Repr !! m.Repr))
    }

    ghost predicate CanMerge(v: Value)
      requires Valid()
      reads this, Repr, if v.Made? then {v.dict} + v.dict.Repr else {}
    {
      if v.Made? then CanTake(v.dict) else SpelledSource(v.src)
    }

    /** What can be written along a path: where it is merged in, what can be merged; where a
        mapping has to be made on the way, nothing that contains its owner. */
    ghost predicate Takes(path: Path, replace: bool, v: Value)
      requires Valid() && path != []
      reads this, Repr, if v.Made? then {v.dict} + v.dict.Repr else {}
      decreases |path|
    {
      if v.Raw? then SpelledSource(v.src)
      else
        && v.dict.Valid()
        && (if path[0] !in items || !items[path[0]].Ref? then |path| > 1 ==> this !in v.dict.Repr
            else if |path| > 1 then items[path[0]].dict.Takes(path[1..], replace, v)
            else !replace ==> items[path[0]].dict.CanTake(v.dict))
    }

    /** Nothing this object owns can always be handed over. */
    lemma TakesOthers(path: Path, replace: bool, v: Value)
      requires Valid() && path != []
      requires if v.Made? then v.dict.Valid() && v.dict.Repr !! Repr else SpelledSource(v.src)
      ensures Takes(path, replace, v)
      decreases |path|
    {
      if v.Made? && path[0] in items && items[path[0]].Ref? && |path| > 1 {
        items[path[0]].dict.TakesOthers(path[1..], replace, v);
      }
    }

    /** The objects that writing an entry may change. */
    ghost function Opened(k: string, inside: bool): (s: set<MergeDict>)
      requires Valid()
      reads this, Repr
      ensures s <= Repr
    {
      {this} + if inside && k in items && items[k].Ref? then items[k].dict.Repr else {}
    }

    ghost function OpenedBy(key: string, v: Value): (s: set<MergeDict>)
      requires Valid()
      reads this, Repr
      ensures s <= Repr
    {
      var k := ParseKey(key);
      Opened(k.path[0], |k.path| > 1 || (!k.replace && IsDict(v)))
    }

    /** The cells of all other keys are as they were. */
    static ghost predicate SameBut(was: map<string, Cell>, now: map<string, Cell>, k: string) {
      forall j :: j != k ==> (j in now <==> j in was) && (j in now ==> now[j] == was[j])
    }

    /** `type(self)(value)`: a copy that shares no object with the value. */
    static method Copy(v: Value) returns (d: MergeDict)
      requires IsDict(v) && (if v.Made? then v.dict.Valid() else SpelledSource(v.src))
      ensures d.Valid() && fresh(d.Repr) && d.tree == FreshValue(v)
      decreases Kind(v), RawRank(v), TreePart(v), 1
    {
      match v {
        case Raw(src) => d := CopyRaw(src);
        case Made(m) => d := CopyMade(m);
      }
    }

    static method CopyRaw(src: Source) returns (d: MergeDict)
      requires src.Dict? && SpelledSource(src)
      ensures d.Valid() && fresh(d.Repr) && d.tree == Fresh(src)
      decreases 1, src, Node(map[]), 0
    {
      d := new MergeDict();
      var i := 0;
      while i < |src.items|
        invariant 0 <= i <= |src.items|
        invariant d.Valid() && forall o :: o in d.Repr ==> !old(allocated(o))
        invariant Init(d.tree.kids, src.items[i..]) == Init(map[], src.items)
      {
        d.InitEntry(src.items[i]);
        assert src.items[i..][1..] == src.items[i + 1..];
        i := i + 1;
      }
    }

    /** One turn of the loop of `__init__`. */
    method InitEntry(pair: Pair)
      requires Valid() && Spelled(pair.key) && SpelledSource(pair.value)
      modifies Repr
      ensures Valid() && fresh(Repr - old(Repr))
      ensures tree == Node(SetTree(old(tree).kids, pair.key, Fresh(pair.value)))
      decreases 1, pair.value, Node(map[]), 6
    {
      hide Valid, Stored;
      var k := ParseKey(pair.key);
      if pair.value.Dict? {
        var sub := CopyRaw(pair.value);
        TakesOthers(k.path, k.replace, Made(sub));
        Set(pair.key, Made(sub));
      } else {
        SetItemPlain(tree.kids, pair.key, pair.value.value);
        TakesOthers(k.path, k.replace, Raw(pair.value));
        Set(pair.key, Raw(pair.value));
      }
    }

    static method CopyMade(m: MergeDict) returns (d: MergeDict)
      requires m.Valid()
      ensures d.Valid() && fresh(d.Repr) && d.tree == m.tree
      decreases 0, Dict([]), m.tree, 0
    {
      hide Done, AssignTree;
      d := new MergeDict();
      var todo := m.items.Keys;
      ghost var kids := m.tree.kids;
      DoneNoneOrAll(kids);
      while todo != {}
        invariant d.Valid() && forall o :: o in d.Repr ==> !old(allocated(o))
        invariant todo <= m.items.Keys
        invariant d.tree == Node(Done(kids, todo))
        decreases todo
      {
        var k :| k in todo;
        DoneOneMore(kids, todo, k);
        d.TakeCopy(m, k);
        todo := todo - {k};
      }
    }

    /** One turn of the loop of `__init__`, when a `MergeDict` is copied. */
    method TakeCopy(m: MergeDict, k: string)
      requires Valid() && m.Valid() && m.Repr !! Repr && k in m.items
      modifies Repr
      ensures Valid() && fresh(Repr - old(Repr))
      ensures tree == Node(AssignTree(old(tree).kids, k, false, m.tree.kids[k]))
      decreases 0, Dict([]), m.tree.kids[k], 6
    {
      match m.items[k] {
        case Atom(x) =>
          SetStored(tree.kids, k, x);
          Set(k, Raw(Plain(x)));
        case Ref(child) =>
          var sub := CopyMade(child);
          SetStoredTree(tree.kids, k, sub.tree);
          TakesOthers([k], false, Made(sub));
          Set(k, Made(sub));
      }
    }

    /** `__setitem__` with an undotted key: a nested mapping stays the object it is when another
        is merged into it, and what is stored otherwise is a copy. */
    method AssignItem(k: string, replace: bool, v: Value)
      requires Valid() && Stored(k) && Takes([k], replace, v)
      modifies Opened(k, !replace && IsDict(v))
      ensures Valid() && fresh(Repr - old(Repr))
      ensures tree == Node(old(AssignValue(tree.kids, k, replace, v)))
      ensures SameBut(old(items), items, k) && k in items
      ensures !replace && IsDict(v) && k in old(items) && old(items)[k].Ref? ==> items[k] == old(items)[k]
      ensures IsDict(v) && !(!replace && k in old(items) && old(items)[k].Ref?) ==>
                items[k].Ref? && fresh(items[k].dict.Repr)
      ensures !IsDict(v) ==> items[k] == Atom(v.src.value)
      decreases Kind(v), RawRank(v), TreePart(v), 3
    {
      if !replace && IsDict(v) && k in items && items[k].Ref? {
        UpdateKid(k, v);
      } else if IsDict(v) {
        var d := Copy(v);
        StoreDict(k, d);
      } else {
        StoreAtom(k, v.src.value);
      }
    }

    /** `self[k].update(value)`: in place, the object under the key stays. */
    method UpdateKid(k: string, v: Value)
      requires Valid() && IsDict(v) && k in items && items[k].Ref? && items[k].dict.CanMerge(v)
      modifies Opened(k, true)
      ensures Valid() && fresh(Repr - old(Repr)) && items == old(items)
      ensures tree == Node(old(tree).kids[k := old(UpdateValue(tree.kids[k], v))])
      decreases Kind(v), RawRank(v), TreePart(v), 2
    {
      items[k].dict.UpdateFrom(v);
      KidChanged(k);
      Refresh(k);
    }

    /** The step of the path loop that makes a mapping to go into. */
    method MakeKid(k: string)
      requires Valid() && Stored(k) && !(k in items && items[k].Ref?)
      modifies this
      ensures Valid() && fresh(Repr - old(Repr))
      ensures k in items && items[k].Ref? && SameBut(old(items), items, k)
      ensures fresh(items[k].dict.Repr) && items[k].dict.tree == Node(map[])
      ensures tree == Node(old(tree).kids[k := Node(map[])])
    {
      var d := new MergeDict();
      StoreDict(k, d);
    }

    /** `__setitem__` with a dotted key, from one of its segments on. */
    method SetAlong(path: Path, replace: bool, v: Value)
      requires Valid() && path != [] && (forall i :: 0 <= i < |path| ==> Stored(path[i])) && Takes(path, replace, v)
      modifies Opened(path[0], |path| > 1 || IsDict(v))
      ensures Valid() && fresh(Repr - old(Repr))
      ensures tree == Node(old(PathValue(tree.kids, path, replace, v)))
      ensures SameBut(old(items), items, path[0])
      decreases Kind(v), RawRank(v), TreePart(v), 4, |path|, 2
    {
      hide Stored, PathTree, SetPath;
      if |path| > 1 {
        PathOfMore(tree.kids, path, replace, v);
        if path[0] !in items || !items[path[0]].Ref? {
          SetBelowNew(path, replace, v);
        } else {
          SetBelow(path, replace, v);
        }
      } else {
        assert path == [path[0]];
        SetLast(path[0], replace, v);
      }
    }

    /** The path goes on in a mapping that has to be made first. */
    method SetBelowNew(path: Path, replace: bool, v: Value)
      requires Valid() && |path| > 1 && forall i :: 0 <= i < |path| ==> Stored(path[i])
      requires !(path[0] in items && items[path[0]].Ref?) && Takes(path, replace, v)
      modifies this
      ensures Valid() && fresh(Repr - old(Repr)) && SameBut(old(items), items, path[0])
      ensures tree == Node(old(tree).kids[path[0] := Node(old(PathValue(map[], path[1..], replace, v)))])
      decreases Kind(v), RawRank(v), TreePart(v), 4, |path|, 1
    {
      hide Stored, PathTree, SetPath, Takes, Valid;
      ghost var was, below := tree.kids, PathValue(map[], path[1..], replace, v);
      MakeKidFor(path, replace, v);
      ghost var made := tree.kids;
      assert made[path[0]].kids == map[] && PathValue(map[], path[1..], replace, v) == below;
      SetBelow(path, replace, v);
      assert made[path[0] := Node(below)] == was[path[0] := Node(below)];
    }

    /** The mapping made can take what the path can. */
    method MakeKidFor(path: Path, replace: bool, v: Value)
      requires Valid() && |path| > 1 && Stored(path[0])
      requires !(path[0] in items && items[path[0]].Ref?) && Takes(path, replace, v)
      modifies this
      ensures Valid() && fresh(Repr - old(Repr))
      ensures path[0] in items && items[path[0]].Ref? && SameBut(old(items), items, path[0])
      ensures fresh(items[path[0]].dict.Repr) && items[path[0]].dict.Takes(path[1..], replace, v)
      ensures tree == Node(old(tree).kids[path[0] := Node(map[])])
      ensures v.Made? ==> v.dict.tree == old(v.dict.tree)
    {
      MakeKid(path[0]);
      items[path[0]].dict.TakesOthers(path[1..], replace, v);
    }

    /** The rest of the path loop, in the mapping just entered. */
    method SetBelow(path: Path, replace: bool, v: Value)
      requires Valid() && |path| > 1 && forall i :: 0 <= i < |path| ==> Stored(path[i])
      requires path[0] in items && items[path[0]].Ref? && items[path[0]].dict.Takes(path[1..], replace, v)
      modifies Opened(path[0], true)
      ensures Valid() && fresh(Repr - old(Repr)) && items == old(items)
      ensures tree == Node(old(tree).kids[path[0] :=
                Node(old(PathValue(tree.kids[path[0]].kids, path[1..], replace, v)))])
      decreases Kind(v), RawRank(v), TreePart(v), 4, |path|, 0
    {
      hide Stored, PathTree, SetPath;
      items[path[0]].dict.SetAlong(path[1..], replace, v);
      KidChanged(path[0]);
      Refresh(path[0]);
    }

    /** The branches after the path loop. */
    method SetLast(k: string, replace: bool, v: Value)
      requires Valid() && Stored(k) && Takes([k], replace, v)
      modifies Opened(k, IsDict(v))
      ensures Valid() && fresh(Repr - old(Repr))
      ensures tree == Node(old(PathValue(tree.kids, [k], replace, v)))
      ensures SameBut(old(items), items, k)
      decreases Kind(v), RawRank(v), TreePart(v), 4, 0
    {
      PathOfOne(tree.kids, k, replace, v);
      if replace && IsDict(v) {
        var d := Copy(v);
        TakesOthers([k], false, Made(d));
        AssignItem(k, false, Made(d));
      } else if replace || !IsDict(v) || k !in items || !items[k].Ref? {
        AssignItem(k, false, v);
      } else {
        UpdateKid(k, v);
      }
    }

    /** `__setitem__` */
    method Set(key: string, v: Value)
      requires Valid() && Spelled(key) && Takes(ParseKey(key).path, ParseKey(key).replace, v)
      modifies OpenedBy(key, v)
      ensures Valid() && fresh(Repr - old(Repr))
      ensures tree == Node(old(SetValue(tree.kids, key, v)))
      ensures SameBut(old(items), items, ParseKey(key).path[0])
      ensures v.Made? && old(v.dict.Repr !! OpenedBy(key, v)) ==> v.dict.Valid() && v.dict.tree == old(v.dict.tree)
      decreases Kind(v), RawRank(v), TreePart(v), 5
    {
      assert v.Made? ==> v.dict.Valid();
      hide Takes, AssignTree, Assign, PathTree, SetPath, Stored, Valid;
      var k := ParseKey(key);
      if |k.path| > 1 {
        SetAlong(k.path, k.replace, v);
      } else {
        assert k.path == [k.path[0]];
        AssignItem(k.path[0], k.replace, v);
      }
    }

    /** `update` and `__call__`: the entries of a raw dict in order, those of a `MergeDict` in
        any order. */
    method UpdateFrom(v: Value)
      requires Valid() && IsDict(v) && CanMerge(v)
      modifies Repr
      ensures Valid() && fresh(Repr - old(Repr))
      ensures tree == old(UpdateValue(tree, v))
      ensures v.Made? ==> v.dict.Valid() && v.dict.tree == old(v.dict.tree)
      decreases Kind(v), RawRank(v), TreePart(v), 1
    {
      match v {
        case Raw(src) => UpdateRaw(src);
        case Made(m) =>
          if m == this {
            MergeSame(tree);
            UpdateSelf();
          } else {
            UpdateMade(m);
          }
      }
    }

    method UpdateRaw(src: Source)
      requires Valid() && src.Dict? && SpelledSource(src)
      modifies Repr
      ensures Valid() && fresh(Repr - old(Repr))
      ensures tree == Node(Update(old(tree).kids, src.items))
      decreases 1, src, Node(map[]), 0
    {
      var i := 0;
      while i < |src.items|
        invariant 0 <= i <= |src.items|
        invariant Valid() && forall o :: o in Repr && old(allocated(o)) ==> o in old(Repr)
        invariant Update(tree.kids, src.items[i..]) == Update(old(tree).kids, src.items)
      {
        Set(src.items[i].key, Raw(src.items[i].value));
        assert src.items[i..][1..] == src.items[i + 1..];
        i := i + 1;
      }
    }

    lemma NotMine(entries: seq<Entry>, rest: seq<Entry>)
      requires forall e :: e in rest ==> e in entries
      requires forall e :: e in entries && e.value.Made? ==> e.value.dict.Valid() && e.value.dict.Repr !! Repr
      ensures forall d :: d in DictsOf(rest) ==> d !in Repr
    {
      forall e | e in rest && e.value.Made? ensures e.value.dict !in Repr {
        assert e.value.dict in e.value.dict.Repr;
      }
    }

    /** One turn of the loop of `update` over a plain dict with values of either kind. */
    method TakeMixed(e: Entry, ghost rest: seq<Entry>)
      requires Valid() && Spelled(e.key)
      requires if e.value.Made? then e.value.dict.Valid() && e.value.dict.Repr !! Repr else SpelledSource(e.value.src)
      requires DictsOf(rest) !! Repr
      modifies Repr
      ensures Valid() && fresh(Repr - old(Repr))
      ensures SetValues(tree.kids, rest) == old(SetValues(SetValue(tree.kids, e.key, e.value), rest))
    {
      hide SetValue, SetValues, Takes, Valid, ParseKey;
      ghost var next := SetValue(tree.kids, e.key, e.value);
      TakesOthers(ParseKey(e.key).path, ParseKey(e.key).replace, e.value);
      Set(e.key, e.value);
      assert SetValues(next, rest) == old(SetValues(next, rest));
    }

    /** The same loop over a plain dict with values of either kind, such as the state of a view. */
    method UpdateMixed(entries: seq<Entry>)
      requires Valid() && forall e :: e in entries ==> Spelled(e.key)
      requires forall e :: e in entries ==>
                 if e.value.Made? then e.value.dict.Valid() && e.value.dict.Repr !! Repr
                 else SpelledSource(e.value.src)
      modifies Repr
      ensures Valid() && fresh(Repr - old(Repr))
      ensures tree == Node(old(SetValues(tree.kids, entries)))
      ensures forall e :: e in entries && e.value.Made? ==>
                e.value.dict.Valid() && e.value.dict.tree == old(e.value.dict.tree)
    {
      hide SetValue, ParseKey, Stored;
      var i := 0;
      assert entries[0..] == entries;
      while i < |entries|
        invariant 0 <= i <= |entries|
        invariant Valid() && forall o :: o in Repr && old(allocated(o)) ==> o in old(Repr)
        invariant SetValues(tree.kids, entries[i..]) == old(SetValues(tree.kids, entries))
      {
        assert entries[i] in entries && entries[i..][0] == entries[i] && entries[i..][1..] == entries[i + 1..];
        NotMine(entries, entries[i + 1..]);
        TakeMixed(entries[i], entries[i + 1..]);
        i := i + 1;
      }
    }

    method UpdateMade(m: MergeDict)
      requires Valid() && m != this && CanTake(m)
      modifies Repr
      ensures Valid() && fresh(Repr - old(Repr))
      ensures tree == Merge(old(tree), old(m.tree))
      ensures unchanged(old(m.Repr))
      decreases 0, Dict([]), m.tree, 0
    {
      hide Done, AssignTree, Merge, Stored;
      var todo := m.items.Keys;
      ghost var kids, mine := m.tree.kids, m.Repr;
      MergeNone(tree, kids);
      while todo != {}
        invariant Valid() && forall o :: o in Repr && old(allocated(o)) ==> o in old(Repr)
        invariant unchanged(mine) && todo <= m.items.Keys
        invariant forall k :: k in todo && m.items[k].Ref? && k in items && items[k].Ref? ==>
                    items[k].dict.Repr !! mine
        invariant tree == Merge(old(tree), Node(Done(kids, todo)))
        decreases todo
      {
        var k :| k in todo;
        MergeOneMore(old(tree), kids, todo, k);
        TakeEntry(m, k);
        todo := todo - {k};
      }
    }

    /** One turn of the loop of `update`, when a `MergeDict` is merged in. */
    method TakeEntry(m: MergeDict, k: string)
      requires Valid() && m.Valid() && k in m.items && this !in m.Repr
      requires m.items[k].Ref? && k in items && items[k].Ref? ==> items[k].dict.Repr !! m.Repr
      modifies Opened(k, m.items[k].Ref?)
      ensures Valid() && fresh(Repr - old(Repr)) && SameBut(old(items), items, k)
      ensures tree == Node(AssignTree(old(tree).kids, k, false, old(m.tree.kids[k])))
      decreases 0, Dict([]), m.tree.kids[k], 6
    {
      match m.items[k] {
        case Atom(x) =>
          SetStored(tree.kids, k, x);
          Set(k, Raw(Plain(x)));
        case Ref(child) =>
          SetStoredTree(tree.kids, k, child.tree);
          Set(k, Made(child));
      }
    }

    /** The same loop when the object is updated with itself: nothing changes. */
    method UpdateSelf()
      requires Valid()
      modifies Repr
      ensures Valid() && fresh(Repr - old(Repr)) && items == old(items) && tree == old(tree)
      decreases 0, Dict([]), tree, 0
    {
      var todo := items.Keys;
      while todo != {}
        invariant Valid() && forall o :: o in Repr && old(allocated(o)) ==> o in old(Repr)
        invariant items == old(items) && tree == old(tree) && todo <= items.Keys
        decreases todo
      {
        var k :| k in todo;
        RetakeEntry(k);
        todo := todo - {k};
      }
    }

    /** One turn of it. */
    method RetakeEntry(k: string)
      requires Valid() && k in items
      modifies Repr
      ensures Valid() && fresh(Repr - old(Repr)) && items == old(items) && tree == old(tree)
      decreases 0, Dict([]), tree.kids[k], 6
    {
      AssignSame(tree.kids, k);
      match items[k] {
        case Atom(x) =>
          AssignItem(k, false, Raw(Plain(x)));
        case Ref(child) =>
          AssignItem(k, false, Made(child));
      }
    }

    /** `__getitem__`: a plain value, the very object of a nested mapping, or an exception. */
    method GetCell(item: string) returns (r: Outcome)
      requires Valid()
      ensures match r
              case IsAtom(x) => GetItem(tree, item) == Found(Leaf(x))
              case IsMapping(d) => d in Repr && d.Valid() && GetItem(tree, item) == Found(d.tree)
              case RaisesKeyError => GetItem(tree, item) == KeyError
              case RaisesTypeError => GetItem(tree, item) == TypeError
    {
      hide Walk;
      var path := if '.' in item && '/' !in item then SplitOn(item, '.') else [item];
      var d := this;
      var i := 0;
      while i < |path|
        invariant 0 <= i <= |path|
        invariant d in Repr && d.Repr <= Repr && d.Valid() && Walk(tree, path) == Walk(d.tree, path[i..])
      {
        WalkStep(d.tree, path, i);
        if path[i] !in d.items {
          return RaisesKeyError;
        }
        match d.items[path[i]] {
          case Atom(x) =>
            WalkEnd(d.tree.kids[path[i]], path[i + 1..]);
            return if i + 1 == |path| then IsAtom(x) else RaisesTypeError;
          case Ref(kid) =>
            d := kid;
        }
        i := i + 1;
      }
      WalkEnd(d.tree, path[i..]);
      return IsMapping(d);
    }

    /** `__contains__`: any failure to read counts as absence. */
    method HasItem(item: string) returns (found: bool)
      requires Valid()
      ensures found == Contains(tree, item)
    {
      var r := GetCell(item);
      return r.IsAtom? || r.IsMapping?;
    }
  }

  datatype Outcome = IsAtom(value: Scalar) | IsMapping(dict: MergeDict) | RaisesKeyError | RaisesTypeError
}
