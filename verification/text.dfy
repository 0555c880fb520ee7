/** The string operations the sources use. */
module Text {

  /** `str.split(c)` */
  function SplitOn(s: string, c: char): (parts: seq<string>)
    ensures parts != []
    ensures forall i :: 0 <= i < |parts| ==> |parts[i]| + (if c in s then 1 else 0) <= |s|
    ensures c !in s ==> |parts| == 1 && parts[0] == s
  {
    if s == [] then [""]
    else
      var rest := SplitOn(s[1..], c);
      assert s == [s[0]] + s[1..];
      if s[0] == c then [""] + rest else [[s[0]] + rest[0]] + rest[1..]
  }

  /** `str.lstrip(c)` */
  function StripLeft(s: string, c: char): string {
    if s != [] && s[0] == c then StripLeft(s[1..], c) else s
  }

  /** `str.rstrip(c)` */
  function StripRight(s: string, c: char): string {
    if s != [] && s[|s| - 1] == c then StripRight(s[..|s| - 1], c) else s
  }

  /** `str.endswith(c)` */
  predicate EndsWith(s: string, c: char) {
    s != [] && s[|s| - 1] == c
  }

  /** What `str.isspace` holds of. */
  predicate IsBlank(c: char) {
    var n := c as int;
    || 0x09 <= n <= 0x0D || 0x1C <= n <= 0x20 || n == 0x85 || n == 0xA0 || n == 0x1680
    || 0x2000 <= n <= 0x200A || n == 0x2028 || n == 0x2029 || n == 0x202F || n == 0x205F || n == 0x3000
  }

  function TrimLeft(s: string): (t: string)
    ensures |t| <= |s|
  {
    if s != [] && IsBlank(s[0]) then TrimLeft(s[1..]) else s
  }

  function TrimRight(s: string): (t: string)
    ensures |t| <= |s|
  {
    if s != [] && IsBlank(s[|s| - 1]) then TrimRight(s[..|s| - 1]) else s
  }

  /** `str.strip()` */
  function Trim(s: string): (t: string)
    ensures |t| <= |s|
  {
    TrimRight(TrimLeft(s))
  }
}
