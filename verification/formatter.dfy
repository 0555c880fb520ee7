/** Formatter pipelines: what a specification such as "a:b|c" resolves to, and that it acts
    as the composition of its atoms. */
module Formatters {
  import opened Wrappers
  import opened Text

  type Data(==, !new)

  /** A formatter class: its two conversions, which may raise. */
  datatype Codec = Codec(enc: Data -> Option<Data>, dec: Data -> Option<Data>)

  type Entries = map<string, Codec>

  /** What `get` returns: `AsIsFormatter`, a registered formatter or a `ChainFormatter`. */
  datatype Formatter = AsIs | Atomic(codec: Codec) | Chain(parts: seq<Formatter>)

  // ---------- Encoding and decoding ----------

  function Encode(f: Formatter, b: Data): Option<Data>
    decreases f, 1
  {
    match f
    case AsIs => Some(b)
    case Atomic(c) => c.enc(b)
    case Chain(parts) => EncodeParts(parts, b)
  }

  function EncodeParts(parts: seq<Formatter>, b: Data): Option<Data>
    decreases parts, 0
  {
    if parts == [] then Some(b)
    else
      match Encode(parts[0], b)
      case None => None
      case Some(x) => EncodeParts(parts[1..], x)
  }

  function Decode(f: Formatter, b: Data): Option<Data>
    decreases f, 1
  {
    match f
    case AsIs => Some(b)
    case Atomic(c) => c.dec(b)
    case Chain(parts) => DecodeParts(parts, b)
  }

  /** In reverse order. */
  function DecodeParts(parts: seq<Formatter>, b: Data): Option<Data>
    decreases parts, 0
  {
    if parts == [] then Some(b)
    else
      match DecodeParts(parts[1..], b)
      case None => None
      case Some(x) => Decode(parts[0], x)
  }

  // ---------- Resolving a specification ----------

  function FirstWith(layers: seq<Entries>, name: string): Option<Codec> {
    if layers == [] then None
    else if name in layers[0] then Some(layers[0][name])
    else FirstWith(layers[1..], name)
  }

  /** `Registry.get`, on the registry's own entries followed by those of its ancestors. */
  function Resolve(layers: seq<Entries>, name: string): Option<Formatter>
    requires layers != []
    decreases |name|, 1
  {
    if name == "" || name == "bytes" then Some(AsIs)
    else if name in layers[0] then Some(Atomic(layers[0][name]))
    else if ':' in name then ResolveParts(layers, SplitOn(name, ':'), |name|)
    else if '|' in name then ResolveParts(layers, SplitOn(name, '|'), |name|)
    else
      match FirstWith(layers[1..], name)
      case None => None
      case Some(c) => Some(Atomic(c))
  }

  function ResolveParts(layers: seq<Entries>, parts: seq<string>, bound: nat): Option<Formatter>
    requires layers != [] && forall i :: 0 <= i < |parts| ==> |parts[i]| < bound
    decreases bound, 0
  {
    match ResolveList(layers, parts, bound)
    case None => None
    case Some(fs) => Some(Chain(fs))
  }

  function ResolveList(layers: seq<Entries>, parts: seq<string>, bound: nat): Option<seq<Formatter>>
    requires layers != [] && forall i :: 0 <= i < |parts| ==> |parts[i]| < bound
    decreases bound, 0, |parts|
  {
    if parts == [] then Some([])
    else
      match Resolve(layers, Trim(parts[0]))
      case None => None
      case Some(f) =>
        match ResolveList(layers, parts[1..], bound)
        case None => None
        case Some(fs) => Some([f] + fs)
  }

  /** A bound on the lengths of names. */
  function Beyond(names: seq<string>): (n: nat)
    ensures forall i :: 0 <= i < |names| ==> |names[i]| < n
  {
    if names == [] then 0
    else
      var n := Beyond(names[1..]);
      assert forall i :: 1 <= i < |names| ==> names[i] == names[1..][i - 1];
      if |names[0]| < n then n else |names[0]| + 1
  }

  /** `Registry.get` on a list of names. */
  function ResolveMany(layers: seq<Entries>, names: seq<string>): Option<Formatter>
    requires layers != []
  {
    if names == [] then Some(AsIs) else ResolveParts(layers, names, Beyond(names))
  }
}
