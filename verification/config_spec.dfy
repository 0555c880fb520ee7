/** The functional specification of `MergeDict`: keys, raw sources, and what writing one into
    a configuration tree yields. */
module ConfigSpec {
  import opened Wrappers
  import opened Text

  type Scalar(==, !new)

  /** What a `MergeDict` stands for: every mapping below it is a `MergeDict` again. */
  datatype Tree = Leaf(value: Scalar) | Node(kids: map<string, Tree>)

  type Kids = map<string, Tree>

  /** What a loader or a caller hands over: plain values and plain dicts, whose keys come in
      order and may be dotted or carry a `!`. */
  datatype Source = Plain(value: Scalar) | Dict(items: seq<Pair>)

  datatype Pair = Pair(key: string, value: Source)

  type Path = seq<string>

  datatype Key = Key(path: Path, replace: bool)

  // ---------- Keys ----------

  /** How `__setitem__` reads a key: a final `!` asks for replacement, dots separate segments
      unless the key holds a slash. */
  function ParseKey(raw: string): (k: Key)
    ensures k.path != []
  {
    var replace := EndsWith(raw, '!');
    var key := if replace then StripLeft(StripRight(raw, '!'), '!') else raw;
    Key(if '.' in key && '/' !in key then SplitOn(key, '.') else [key], replace)
  }

  // ---------- Trees ----------

  /** Deep merge; the second tree wins wherever they cannot be combined. */
  function Merge(a: Tree, b: Tree): Tree
    decreases b
  {
    if a.Leaf? || b.Leaf? then b
    else
      Node(map k | k in a.kids.Keys + b.kids.Keys ::
             if k !in b.kids then a.kids[k]
             else if k !in a.kids then b.kids[k]
             else Merge(a.kids[k], b.kids[k]))
  }

  function Lookup(t: Tree, path: Path): Option<Tree>
    decreases |path|
  {
    if path == [] then Some(t)
    else if t.Node? && path[0] in t.kids then Lookup(t.kids[path[0]], path[1..])
    else None
  }

  /** The mapping a path goes through, created or put in place of a plain value if need be. */
  function Child(m: Kids, k: string): Kids {
    if k in m && m[k].Node? then m[k].kids else map[]
  }

  // ---------- Writing a value that is a `MergeDict` already ----------

  function AssignTree(m: Kids, k: string, replace: bool, u: Tree): Kids {
    m[k := if !replace && k in m then Merge(m[k], u) else u]
  }

  function PathTree(m: Kids, path: Path, u: Tree): Kids
    requires path != []
    decreases |path|
  {
    if |path| == 1 then AssignTree(m, path[0], false, u)
    else m[path[0] := Node(PathTree(Child(m, path[0]), path[1..], u))]
  }

  function SetTree(m: Kids, key: string, u: Tree): Kids {
    var k := ParseKey(key);
    if |k.path| == 1 then AssignTree(m, k.path[0], k.replace, u) else PathTree(m, k.path, u)
  }

  // ---------- Writing a raw value ----------

  /** `type(self)(value)`: a fresh mapping, nested mappings first made `MergeDict`s. */
  function Fresh(src: Source): (t: Tree)
    ensures t.Node? <==> src.Dict?
    decreases src, 4
  {
    match src
    case Plain(x) => Leaf(x)
    case Dict(items) => Node(Init(map[], items))
  }

  /** The loop of `__init__`. */
  function Init(m: Kids, items: seq<Pair>): Kids
    decreases items, 3
  {
    if items == [] then m else Init(SetTree(m, items[0].key, Fresh(items[0].value)), items[1..])
  }

  /** `__setitem__` with a key of one segment. */
  function Assign(m: Kids, k: string, replace: bool, src: Source): Kids
    decreases src, 5
  {
    m[k := if !replace && src.Dict? && k in m && m[k].Node? then Node(Update(m[k].kids, src.items))
           else Fresh(src)]
  }

  /** `__setitem__` with a dotted key: `!` does not reach the last segment. */
  function SetPath(m: Kids, path: Path, replace: bool, src: Source): Kids
    requires path != []
    decreases src, 6, |path|
  {
    if |path| == 1 then
      if replace && src.Dict? then AssignTree(m, path[0], false, Fresh(src))
      else Assign(m, path[0], false, src)
    else m[path[0] := Node(SetPath(Child(m, path[0]), path[1..], replace, src))]
  }

  /** `__setitem__` */
  function SetItem(m: Kids, key: string, src: Source): Kids
    decreases src, 7
  {
    var k := ParseKey(key);
    if |k.path| == 1 then Assign(m, k.path[0], k.replace, src) else SetPath(m, k.path, k.replace, src)
  }

  /** `update`, and the loop of `__call__`. */
  function Update(m: Kids, items: seq<Pair>): Kids
    decreases items, 3
  {
    if items == [] then m else Update(SetItem(m, items[0].key, items[0].value), items[1..])
  }

  // ---------- Keys that cannot be written ----------

  /** A key that `__setitem__` takes as it stands; every stored key is one. */
  predicate Stored(k: string) {
    ParseKey(k) == Key([k], false)
  }

  /** No segment of a dotted key ends with `!`, except through the final `!` of the key: the
      mapping made for such a segment is stored without the `!` and then not found. */
  predicate Spelled(key: string) {
    forall i :: 0 <= i < |ParseKey(key).path| ==> Stored(ParseKey(key).path[i])
  }

  predicate SpelledSource(src: Source) {
    src.Dict? ==> SpelledItems(src.items)
  }

  predicate SpelledItems(items: seq<Pair>) {
    forall i :: 0 <= i < |items| ==> Spelled(items[i].key) && SpelledSource(items[i].value)
  }

  /** `update` until the first entry that cannot be written, and what is left when that raises. */
  function Broken(m: Kids, items: seq<Pair>): Kids
    decreases items, 3
  {
    if items == [] then m
    else if Spelled(items[0].key) && SpelledSource(items[0].value) then
      Broken(SetItem(m, items[0].key, items[0].value), items[1..])
    else
      var k := ParseKey(items[0].key);
      if |k.path| == 1 then BrokenAssign(m, k.path[0], k.replace, items[0].value)
      else BrokenPath(m, k.path, k.replace, items[0].value)
  }

  /** A mapping made under a wrong segment stays, without its `!`. */
  function BrokenPath(m: Kids, path: Path, replace: bool, src: Source): Kids
    requires path != []
    decreases src, 6, |path|
  {
    if |path| == 1 then BrokenAssign(m, path[0], replace, src)
    else if !Stored(path[0]) then m[ParseKey(path[0]).path[0] := Node(map[])]
    else m[path[0] := Node(BrokenPath(Child(m, path[0]), path[1..], replace, src))]
  }

  /** A value that cannot be copied is not stored; one that is merged leaves what it could. */
  function BrokenAssign(m: Kids, k: string, replace: bool, src: Source): Kids
    decreases src, 5
  {
    if !replace && src.Dict? && k in m && m[k].Node? then m[k := Node(Broken(m[k].kids, src.items))] else m
  }

  // ---------- Reading ----------

  datatype Read = Found(tree: Tree) | KeyError | TypeError

  /** `__getitem__` along a path; indexing a plain value fails in its own way. */
  function Walk(t: Tree, path: Path): Read
    decreases |path|
  {
    if path == [] then Found(t)
    else if t.Leaf? then TypeError
    else if path[0] !in t.kids then KeyError
    else Walk(t.kids[path[0]], path[1..])
  }

  function GetItem(t: Tree, item: string): Read {
    Walk(t, if '.' in item && '/' !in item then SplitOn(item, '.') else [item])
  }

  predicate Contains(t: Tree, item: string) {
    GetItem(t, item).Found?
  }
}
