/** `parse_size` and `parse_duration`: sums of decimal numbers with units. */
module Humanize {
  import opened Wrappers

  // ---------- The two patterns ----------

  predicate IsDigit(c: char) {
    '0' <= c <= '9'
  }

  predicate IsLetter(c: char) {
    'a' <= c <= 'z' || 'A' <= c <= 'Z'
  }

  predicate IsSpace(c: char) {
    c == ' ' || 9 <= c as int <= 13
  }

  /** `pattern_valid` matches the whole text. */
  predicate IsValid(s: string) {
    s != "" && IsDigit(s[0]) && forall i :: 0 <= i < |s| ==> IsDigit(s[i]) || IsLetter(s[i]) || IsSpace(s[i])
  }

  function DigitRun(s: string): (n: nat)
    ensures n <= |s|
  {
    if s != "" && IsDigit(s[0]) then 1 + DigitRun(s[1..]) else 0
  }

  function LetterRun(s: string): (n: nat)
    ensures n <= |s|
  {
    if s != "" && IsLetter(s[0]) then 1 + LetterRun(s[1..]) else 0
  }

  datatype Token = Token(digits: string, unit: string)

  /** The length of the match at the head of a text that starts with a digit. */
  function MatchLen(s: string): (n: nat)
    ensures DigitRun(s) <= n <= |s|
  {
    DigitRun(s) + LetterRun(s[DigitRun(s)..])
  }

  function MatchAt(s: string): Token {
    Token(s[..DigitRun(s)], s[DigitRun(s)..MatchLen(s)])
  }

  /** `pattern.finditer`: maximal runs of digits with the letters right behind them; anything
      else is skipped. */
  function Tokens(s: string): seq<Token>
    decreases |s|
  {
    if s == "" then []
    else if !IsDigit(s[0]) then Tokens(s[1..])
    else [MatchAt(s)] + Tokens(s[MatchLen(s)..])
  }

  /** `int` on a run of digits. */
  function Decimal(s: string): nat {
    if s == "" then 0
    else Decimal(s[..|s| - 1]) * 10 +
         if IsDigit(s[|s| - 1]) then s[|s| - 1] as int - '0' as int else 0
  }

  // ---------- Units ----------

  type Units = map<string, nat>

  function Pow2(n: nat): nat {
    if n == 0 then 1 else 2 * Pow2(n - 1)
  }

  /** `size_levels`, with the one-letter names the module adds. */
  const SIZE_LEVELS: map<string, nat> :=
    map["KB" := 10, "MB" := 20, "GB" := 30, "TB" := 40, "PB" := 50,
        "K" := 10, "M" := 20, "G" := 30, "T" := 40, "P" := 50]

  const DURATIONS: Units :=
    map["w" := 7 * 24 * 60 * 60, "d" := 24 * 60 * 60, "h" := 60 * 60, "m" := 60, "s" := 1]

  function SizeUnits(): Units {
    map u | u in SIZE_LEVELS :: Pow2(SIZE_LEVELS[u])
  }

  function ValueOf(t: Token, units: Units): Option<nat> {
    if t.unit == "" then Some(Decimal(t.digits))
    else if t.unit in units then Some(Decimal(t.digits) * units[t.unit])
    else None
  }

  function Plus(x: Option<nat>, y: Option<nat>): Option<nat> {
    if x.Some? && y.Some? then Some(x.value + y.value) else None
  }

  function Total(ts: seq<Token>, units: Units): Option<nat> {
    if ts == [] then Some(0) else Plus(ValueOf(ts[0], units), Total(ts[1..], units))
  }

  /** What both functions compute; None stands for `ValueError`. */
  function Parse(s: string, units: Units): Option<nat> {
    if IsValid(s) then Total(Tokens(s), units) else None
  }

  // ---------- The loops ----------

  /** The loop over the matches, which the two functions share but for the table. */
  method SumMatches(value: string, units: Units) returns (r: Option<nat>)
    ensures r == Total(Tokens(value), units)
  {
    var result: nat, rest := 0, value;
    while rest != ""
      invariant Total(Tokens(value), units) == Plus(Some(result), Total(Tokens(rest), units))
      decreases |rest|
    {
      if IsDigit(rest[0]) {
        var worth := ValueOf(MatchAt(rest), units);
        rest := rest[MatchLen(rest)..];
        if worth == None {
          return None;
        }
        result := result + worth.value;
      } else {
        rest := rest[1..];
      }
    }
    return Some(result);
  }

  /** What is handed in: a number is handed back as it is. */
  datatype Given = Number(value: real) | Text(text: string)

  function ParseGiven(value: Given, units: Units): Option<real> {
    match value
    case Number(x) => Some(x)
    case Text(s) => match Parse(s, units) case None => None case Some(n) => Some(n as real)
  }

  /** `parse_size` */
  method ParseSize(value: Given) returns (r: Option<real>)
    ensures r == ParseGiven(value, SizeUnits())
  {
    if value.Number? {
      return Some(value.value);
    } else if !IsValid(value.text) {
      return None;
    }
    var sum := SumMatches(value.text, SizeUnits());
    return if sum.Some? then Some(sum.value as real) else None;
  }

  /** `parse_duration` */
  method ParseDuration(value: Given) returns (r: Option<real>)
    ensures r == ParseGiven(value, DURATIONS)
  {
    if value.Number? {
      return Some(value.value);
    } else if !IsValid(value.text) {
      return None;
    }
    var sum := SumMatches(value.text, DURATIONS);
    return if sum.Some? then Some(sum.value as real) else None;
  }

  // ---------- Concatenation ----------

  /** Nothing at the end of `a` runs on into `b`. */
  predicate Separate(a: string, b: string) {
    b == "" || (!IsLetter(b[0]) && (IsDigit(b[0]) && a != "" ==> !IsDigit(a[|a| - 1])))
  }

  lemma {:induction false} DigitRunAppend(a: string, b: string)
    requires Separate(a, b) && a != ""
    ensures DigitRun(a + b) == DigitRun(a)
    decreases |a|
  {
    assert (a + b)[1..] == a[1..] + b;
    if IsDigit(a[0]) && |a| > 1 {
      DigitRunAppend(a[1..], b);
    } else if IsDigit(a[0]) {
      assert a[1..] + b == b;
    }
  }

  lemma {:induction false} LetterRunAppend(a: string, b: string)
    requires b == "" || !IsLetter(b[0])
    ensures LetterRun(a + b) == LetterRun(a)
    decreases |a|
  {
    if a == "" {
      assert a + b == b;
    } else {
      assert (a + b)[1..] == a[1..] + b;
      LetterRunAppend(a[1..], b);
    }
  }

  lemma MatchAppend(a: string, b: string)
    requires Separate(a, b) && a != ""
    ensures MatchLen(a + b) == MatchLen(a) && MatchAt(a + b) == MatchAt(a)
    ensures (a + b)[MatchLen(a)..] == a[MatchLen(a)..] + b
  {
    DigitRunAppend(a, b);
    var d := DigitRun(a);
    assert (a + b)[d..] == a[d..] + b;
    LetterRunAppend(a[d..], b);
    assert (a + b)[..d] == a[..d] && (a + b)[d..MatchLen(a)] == a[d..MatchLen(a)];
  }

  lemma {:induction false} TokensAppend(a: string, b: string)
    requires Separate(a, b)
    ensures Tokens(a + b) == Tokens(a) + Tokens(b)
    decreases |a|
  {
    if a == "" {
      assert a + b == b;
    } else if !IsDigit(a[0]) {
      assert (a + b)[1..] == a[1..] + b;
      TokensAppend(a[1..], b);
    } else {
      MatchAppend(a, b);
      TokensAppend(a[MatchLen(a)..], b);
    }
  }

  lemma {:induction false} TotalAppend(s: seq<Token>, t: seq<Token>, units: Units)
    ensures Total(s + t, units) == Plus(Total(s, units), Total(t, units))
    decreases |s|
  {
    if s == [] {
      assert s + t == t;
    } else {
      assert (s + t)[1..] == s[1..] + t;
      TotalAppend(s[1..], t, units);
    }
  }

  /** Writing one accepted expression after another adds them up, with nothing in between if
      the first does not end with a digit; an unknown unit in either one rejects the whole. */
  lemma ParseAppend(a: string, b: string, units: Units)
    requires IsValid(a) && IsValid(b) && !IsDigit(a[|a| - 1])
    ensures Parse(a + b, units) == Plus(Parse(a, units), Parse(b, units))
  {
    TokensAppend(a, b);
    TotalAppend(Tokens(a), Tokens(b), units);
  }

  /** ... and always with a white character in between. */
  lemma ParseSum(a: string, c: char, b: string, units: Units)
    requires IsValid(a) && IsValid(b) && (c as int == 32 || 9 <= c as int <= 13)
    ensures IsValid(a + [c] + b) && Parse(a + [c] + b, units) == Plus(Parse(a, units), Parse(b, units))
  {
    hide Total, Plus;
    var d := a + [c];
    TokensAppend(a, [c]);
    assert [c][1..] == "" && Tokens([c]) == [] && Tokens(a) + [] == Tokens(a);
    assert Parse(d, units) == Parse(a, units);
    ParseAppend(d, b, units);
  }

  // ---------- Rendering ----------

  /** `str` of a number. */
  function DigitsOf(n: nat): (s: string)
    ensures s != "" && forall i :: 0 <= i < |s| ==> IsDigit(s[i])
  {
    var last := [(n % 10 + '0' as int) as char];
    if n < 10 then last else DigitsOf(n / 10) + last
  }

  lemma {:induction false} DecimalDigits(n: nat)
    ensures Decimal(DigitsOf(n)) == n
  {
    var s := DigitsOf(n);
    if n >= 10 {
      DecimalDigits(n / 10);
      assert s[..|s| - 1] == DigitsOf(n / 10);
    } else {
      assert s[..|s| - 1] == "";
    }
  }

  datatype Part = Part(n: nat, unit: string)

  predicate KnownPart(p: Part, units: Units) {
    && (p.unit == "" || p.unit in units)
    && forall i :: 0 <= i < |p.unit| ==> IsLetter(p.unit[i])
  }

  function Worth(p: Part, units: Units): nat {
    if p.unit in units && p.unit != "" then p.n * units[p.unit] else p.n
  }

  function SumOf(parts: seq<Part>, units: Units): nat {
    if parts == [] then 0 else Worth(parts[0], units) + SumOf(parts[1..], units)
  }

  function Render(parts: seq<Part>): string
    requires parts != []
    decreases |parts|
  {
    var head := DigitsOf(parts[0].n) + parts[0].unit;
    if |parts| == 1 then head else head + " " + Render(parts[1..])
  }

  lemma {:induction false} AllDigits(s: string)
    requires forall i :: 0 <= i < |s| ==> IsDigit(s[i])
    ensures DigitRun(s) == |s|
  {
    if s != "" { AllDigits(s[1..]); }
  }

  lemma {:induction false} AllLetters(s: string)
    requires forall i :: 0 <= i < |s| ==> IsLetter(s[i])
    ensures LetterRun(s) == |s|
  {
    if s != "" { AllLetters(s[1..]); }
  }

  lemma {:induction false} DigitsThenLetters(d: string, u: string)
    requires (forall i :: 0 <= i < |d| ==> IsDigit(d[i])) && forall i :: 0 <= i < |u| ==> IsLetter(u[i])
    ensures DigitRun(d + u) == |d|
    decreases |d|
  {
    if d == "" {
      assert d + u == u;
    } else {
      assert (d + u)[1..] == d[1..] + u;
      DigitsThenLetters(d[1..], u);
    }
  }

  lemma TokensOfPart(p: Part)
    requires forall i :: 0 <= i < |p.unit| ==> IsLetter(p.unit[i])
    ensures Tokens(DigitsOf(p.n) + p.unit) == [Token(DigitsOf(p.n), p.unit)]
  {
    var d, s := DigitsOf(p.n), DigitsOf(p.n) + p.unit;
    DigitsThenLetters(d, p.unit);
    assert s[|d|..] == p.unit && s[..|d|] == d;
    AllLetters(p.unit);
    assert s[|d|..MatchLen(s)] == p.unit;
    assert s[MatchLen(s)..] == "";
    assert s[0] == d[0];
  }

  lemma ParseOne(p: Part, units: Units)
    requires KnownPart(p, units)
    ensures var s := DigitsOf(p.n) + p.unit; IsValid(s) && Parse(s, units) == Some(Worth(p, units))
  {
    TokensOfPart(p);
    DecimalDigits(p.n);
    var t := Token(DigitsOf(p.n), p.unit);
    assert [t][1..] == [];
    assert Total([t], units) == Plus(ValueOf(t, units), Some(0));
  }

  lemma ParseNumber(n: nat, units: Units)
    ensures Parse(DigitsOf(n), units) == Some(n)
  {
    ParseOne(Part(n, ""), units);
    assert DigitsOf(n) + "" == DigitsOf(n);
  }

  predicate KnownParts(parts: seq<Part>, units: Units) {
    forall i :: 0 <= i < |parts| ==> KnownPart(parts[i], units)
  }

  lemma RenderMore(head: string, rest: string, w: nat, r: nat, units: Units)
    requires IsValid(head) && IsValid(rest) && Parse(head, units) == Some(w) && Parse(rest, units) == Some(r)
    ensures IsValid(head + " " + rest) && Parse(head + " " + rest, units) == Some(w + r)
  {
    hide Parse, IsValid;
    ParseSum(head, ' ', rest, units);
  }

  /** Rendering any list of numbers with known units and parsing it gives the exact weighted
      sum. */
  lemma {:induction false} ParseRender(parts: seq<Part>, units: Units)
    requires parts != [] && KnownParts(parts, units)
    ensures IsValid(Render(parts)) && Parse(Render(parts), units) == Some(SumOf(parts, units))
    decreases |parts|
  {
    hide Worth, Parse, IsValid;
    ParseOne(parts[0], units);
    if |parts| == 1 {
      assert parts[1..] == [];
      assert SumOf(parts, units) == Worth(parts[0], units) + SumOf([], units);
    } else {
      ParseRender(parts[1..], units);
      RenderMore(DigitsOf(parts[0].n) + parts[0].unit, Render(parts[1..]),
                 Worth(parts[0], units), SumOf(parts[1..], units), units);
    }
  }

  /** A space before the unit drops the unit: "1 KB" parses as 1. */
  lemma SpacedUnitIsDropped(n: nat, unit: string, units: Units)
    requires forall i :: 0 <= i < |unit| ==> IsLetter(unit[i])
    ensures Parse(DigitsOf(n) + " " + unit, units) == Some(n)
  {
    hide Tokens, Total;
    var d := DigitsOf(n);
    ParseNumber(n, units);
    assert d + " " + unit == d + (" " + unit);
    TokensAppend(d, " " + unit);
    NoTokens(" " + unit);
    assert Tokens(d) + [] == Tokens(d);
  }

  lemma TimesItself(n: nat, u: nat)
    ensures n * u == n <==> n == 0 || u == 1
  {
    if n > 0 && u > 1 {
      assert n * u == n + n * (u - 1) && n * (u - 1) >= 1;
    }
  }

  /** A number printed with a space before its unit is read back if and only if the unit means
      nothing to the parser, or nothing for this number: bytes are, kilobytes are not. */
  lemma SpacedUnitReadsBackExactly(n: nat, unit: string, units: Units)
    requires forall i :: 0 <= i < |unit| ==> IsLetter(unit[i])
    ensures Parse(DigitsOf(n) + " " + unit, units) == Some(Worth(Part(n, unit), units)) <==>
            unit == "" || unit !in units || n == 0 || units[unit] == 1
  {
    SpacedUnitIsDropped(n, unit, units);
    if unit != "" && unit in units { TimesItself(n, units[unit]); }
  }

  lemma {:induction false} NoTokens(s: string)
    requires forall i :: 0 <= i < |s| ==> !IsDigit(s[i])
    ensures Tokens(s) == []
  {
    if s != "" { NoTokens(s[1..]); }
  }

  // ---------- The units ----------

  predicate AllAlphabetic(unit: string) {
    forall i :: 0 <= i < |unit| ==> 65 <= unit[i] as int <= 90 || 97 <= unit[i] as int <= 122
  }

  /** A number with a unit of letters is known to the table or rejected. */
  lemma ParseUnit(n: nat, unit: string, units: Units)
    requires unit != "" && AllAlphabetic(unit)
    ensures Parse(DigitsOf(n) + unit, units) == if unit in units then Some(n * units[unit]) else None
  {
    TokensOfPart(Part(n, unit));
    DecimalDigits(n);
    var t := Token(DigitsOf(n), unit);
    assert [t][1..] == [];
    assert Total([t], units) == Plus(ValueOf(t, units), Some(0));
  }

  /** `parse_duration` on a number and a unit: seconds, minutes, hours, days and weeks in lower
      case, in seconds, and no other unit. */
  lemma DurationsAreSeconds(n: nat, unit: string)
    requires AllAlphabetic(unit)
    ensures ParseGiven(Text(DigitsOf(n) + unit), DURATIONS) ==
            if unit == "" || unit == "s" then Some(n as real)
            else if unit == "m" then Some((60 * n) as real)
            else if unit == "h" then Some((3600 * n) as real)
            else if unit == "d" then Some((86400 * n) as real)
            else if unit == "w" then Some((604800 * n) as real)
            else None
  {
    hide Parse;
    if unit == "" {
      ParseNumber(n, DURATIONS);
      assert DigitsOf(n) + unit == DigitsOf(n);
    } else {
      ParseUnit(n, unit, DURATIONS);
    }
  }

  lemma TenMore(k: nat)
    ensures Pow2(k + 10) == 1024 * Pow2(k) && Pow2(0) == 1
  {
    assert Pow2(k + 2) == 4 * Pow2(k);
    assert Pow2(k + 4) == 4 * Pow2(k + 2);
    assert Pow2(k + 6) == 4 * Pow2(k + 4);
    assert Pow2(k + 8) == 4 * Pow2(k + 6);
  }

  lemma SizesAreBinary()
    ensures SizeUnits() ==
            map["K" := 1024, "M" := 1048576, "G" := 1073741824, "T" := 1099511627776, "P" := 1125899906842624,
                "KB" := 1024, "MB" := 1048576, "GB" := 1073741824, "TB" := 1099511627776, "PB" := 1125899906842624]
  {
    hide Pow2;
    TenMore(0);
    TenMore(10);
    TenMore(20);
    TenMore(30);
    TenMore(40);
  }

  /** `parse_size` on a number and a unit: in upper case, each unit is 1024 of the one before,
      with or without a "B", and there is no other. */
  lemma SizesAreBytes(n: nat, unit: string)
    requires AllAlphabetic(unit)
    ensures ParseGiven(Text(DigitsOf(n) + unit), SizeUnits()) ==
            if unit == "" then Some(n as real)
            else if unit == "K" || unit == "KB" then Some((1024 * n) as real)
            else if unit == "M" || unit == "MB" then Some((1048576 * n) as real)
            else if unit == "G" || unit == "GB" then Some((1073741824 * n) as real)
            else if unit == "T" || unit == "TB" then Some((1099511627776 * n) as real)
            else if unit == "P" || unit == "PB" then Some((1125899906842624 * n) as real)
            else None
  {
    hide Parse, SizeUnits, Pow2;
    SizesAreBinary();
    if unit == "" {
      ParseNumber(n, SizeUnits());
      assert DigitsOf(n) + unit == DigitsOf(n);
    } else {
      ParseUnit(n, unit, SizeUnits());
    }
  }

  lemma {:induction false} TotalKnown(ts: seq<Token>, units: Units)
    ensures Total(ts, units).Some? <==> forall t :: t in ts ==> t.unit == "" || t.unit in units
    decreases |ts|
  {
    if ts != [] {
      TotalKnown(ts[1..], units);
      assert forall t :: t in ts <==> t == ts[0] || t in ts[1..];
    }
  }

  /** ASCII digits, letters and white characters, a digit first. */
  predicate Shaped(s: string) {
    s != "" && 48 <= s[0] as int <= 57 && forall i :: 0 <= i < |s| ==> Admitted(s[i] as int)
  }

  predicate Admitted(c: int) {
    c == 32 || 9 <= c <= 13 || 48 <= c <= 57 || 65 <= c <= 90 || 97 <= c <= 122
  }

  lemma ValidExactly(s: string)
    ensures IsValid(s) <==> Shaped(s)
  {
  }

  /** A number is handed back, and of the texts exactly those are accepted that start with a
      digit, consist of ASCII digits, letters and white characters, and have known units only. */
  lemma AcceptedExactly(s: string, x: real, units: Units)
    ensures ParseGiven(Number(x), units) == Some(x)
    ensures ParseGiven(Text(s), units).Some? <==>
              Shaped(s) && forall t :: t in Tokens(s) ==> t.unit == "" || t.unit in units
  {
    hide IsValid, Shaped, Tokens, Total;
    ValidExactly(s);
    TotalKnown(Tokens(s), units);
  }
}
