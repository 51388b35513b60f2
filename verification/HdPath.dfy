/**
 Printing and parsing of wallet derivation paths (accounts/hd.go).

 A component is converted to a number with `big.Int.SetString` and base 0: a sign, a prefix for the
 base, digits, and underscores between them. Parsing takes the converter as a parameter, since all
 that the round trip needs of it is that it reads decimal numbers without leading zeros.
 */
module HdPath {
  import opened Basics

  const HARDENED: nat := 0x8000_0000
  const MAX_UINT32: nat := 0xFFFF_FFFF
  const DEFAULT_ROOT: seq<nat> := [HARDENED + 44, HARDENED + 60, HARDENED, 0]

  datatype Error = EmptyPath | AmbiguousPath | InvalidComponent | OutOfRange

  datatype Result<+T> = Ok(value: T) | Err(error: Error)

  type Converter = string -> Option<int>

  // ------------------------------------------------------------------ strings

  function Decimal(n: nat): (s: string)
    ensures |s| > 0 && forall i :: 0 <= i < |s| ==> '0' <= s[i] <= '9'
  {
    var digit := [(('0' as int) + n % 10) as char];
    if n < 10 then digit else Decimal(n / 10) + digit
  }

  predicate IsSpace(c: char) {
    c == ' ' || '\t' <= c <= '\r' || c == '\U{85}' || c == '\U{A0}'
  }

  function TrimLeft(s: string): string {
    if s != [] && IsSpace(s[0]) then TrimLeft(s[1..]) else s
  }

  function TrimRight(s: string): string {
    if s != [] && IsSpace(s[|s| - 1]) then TrimRight(s[..|s| - 1]) else s
  }

  function TrimSpace(s: string): string {
    TrimRight(TrimLeft(s))
  }

  /** The parts of a string between slashes; at least one. */
  function Split(s: string): (r: seq<string>)
    ensures |r| > 0
  {
    if s == [] then [[]]
    else
      var r := Split(s[..|s| - 1]);
      var c := s[|s| - 1];
      if c == '/' then r + [[]] else r[|r| - 1 := r[|r| - 1] + [c]]
  }

  lemma {:induction false} SplitExtended(s: string, part: string)
    requires '/' !in part
    ensures Split(s + ['/'] + part) == Split(s) + [part]
  {
    var all := s + ['/'] + part;
    if part == [] {
      assert all[..|all| - 1] == s;
    } else {
      var rest := part[..|part| - 1];
      SplitExtended(s, rest);
      assert all[..|all| - 1] == s + ['/'] + rest;
      assert part == rest + [part[|part| - 1]];
    }
  }

  // ------------------------------------------------------------------ printing

  /** The number without the hardening offset. */
  function Plain(c: nat): nat {
    if c >= HARDENED then c - HARDENED else c
  }

  function Component(c: nat): (s: string)
    ensures '/' !in s && |s| > 0 && !IsSpace(s[0]) && !IsSpace(s[|s| - 1])
  {
    var digits := Decimal(Plain(c));
    if c >= HARDENED then digits + ['\''] else digits
  }

  function Printed(path: seq<nat>): string {
    if path == [] then "m"
    else Printed(path[..|path| - 1]) + ['/'] + Component(path[|path| - 1])
  }

  method Print(path: seq<nat>) returns (result: string)
    ensures result == Printed(path)
  {
    result := "m";
    for i := 0 to |path|
      invariant result == Printed(path[..i])
    {
      var component, hardened := path[i], false;
      if component >= HARDENED {
        component, hardened := component - HARDENED, true;
      }
      result := result + ['/'] + Decimal(component);
      if hardened {
        result := result + ['\''];
      }
      assert path[..i + 1][..i] == path[..i];
    }
    assert path[..|path|] == path;
  }

  // ------------------------------------------------------------------ parsing

  function ParseComponent(component: string, convert: Converter): Result<nat> {
    var trimmed := TrimSpace(component);
    var hardened := trimmed != [] && trimmed[|trimmed| - 1] == '\'';
    var value := if hardened then HARDENED else 0;
    var number := convert(if hardened then TrimSpace(trimmed[..|trimmed| - 1]) else trimmed);
    if number.None? then Err(InvalidComponent)
    else if number.value < 0 || number.value > MAX_UINT32 - value then Err(OutOfRange)
    else Ok(value + number.value)
  }

  /** All components one after the other; the first error counts. */
  function ParseAll(components: seq<string>, convert: Converter): Result<seq<nat>> {
    if components == [] then Ok([])
    else
      match ParseAll(components[..|components| - 1], convert)
      case Err(e) => Err(e)
      case Ok(rest) =>
        match ParseComponent(components[|components| - 1], convert)
        case Err(e) => Err(e)
        case Ok(v) => Ok(rest + [v])
  }

  lemma ParseOneMore(components: seq<string>, component: string, convert: Converter)
    ensures ParseAll(components, convert).Err? ==>
              ParseAll(components + [component], convert) == ParseAll(components, convert)
    ensures ParseAll(components, convert).Ok? ==>
              ParseAll(components + [component], convert) ==
              match ParseComponent(component, convert)
              case Err(e) => Err(e)
              case Ok(v) => Ok(ParseAll(components, convert).value + [v])
  {
    assert (components + [component])[..|components|] == components;
  }

  /** What a path means, given its components: absolute paths start with m, relative ones continue
      the default root. */
  function MeaningOf(components: seq<string>, convert: Converter): Result<seq<nat>>
    requires |components| > 0
  {
    var start := TrimSpace(components[0]);
    if start == [] then Err(AmbiguousPath)
    else if start == "m" then
      if |components| == 1 then Err(EmptyPath) else ParseAll(components[1..], convert)
    else
      match ParseAll(components, convert)
      case Err(e) => Err(e)
      case Ok(rest) => Ok(DEFAULT_ROOT + rest)
  }

  function Meaning(path: string, convert: Converter): Result<seq<nat>> {
    MeaningOf(Split(path), convert)
  }

  /** An error in a prefix is the error of the whole. */
  lemma {:induction false} ErrorStays(components: seq<string>, i: nat, convert: Converter)
    requires i <= |components| && ParseAll(components[..i], convert).Err?
    ensures ParseAll(components, convert) == ParseAll(components[..i], convert)
    decreases |components|
  {
    if i < |components| {
      var n := |components| - 1;
      assert components[..n][..i] == components[..i];
      ErrorStays(components[..n], i, convert);
    } else {
      assert components[..i] == components;
    }
  }

  lemma ParseNext(components: seq<string>, i: nat, done: seq<nat>, convert: Converter)
    requires i < |components| && ParseAll(components[..i], convert) == Ok(done)
    ensures var value := ParseComponent(components[i], convert);
            && (value.Err? ==> ParseAll(components, convert) == Err(value.error))
            && (value.Ok? ==> ParseAll(components[..i + 1], convert) == Ok(done + [value.value]))
  {
    var before, component := components[..i], components[i];
    assert components[..i + 1] == before + [component];
    ParseOneMore(before, component, convert);
    if ParseComponent(component, convert).Err? {
      ErrorStays(components, i + 1, convert);
    }
  }

  /** The loop over the components. */
  method ParseComponents(components: seq<string>, prefix: seq<nat>, convert: Converter) returns (res: Result<seq<nat>>)
    ensures res == match ParseAll(components, convert) case Err(e) => Err(e) case Ok(rest) => Ok(prefix + rest)
  {
    var result := prefix;
    ghost var done: seq<nat> := [];
    for i := 0 to |components|
      invariant ParseAll(components[..i], convert) == Ok(done) && result == prefix + done
    {
      var value := ParseComponent(components[i], convert);
      ParseNext(components, i, done, convert);
      if value.Err? {
        return Err(value.error);
      }
      result, done := result + [value.value], done + [value.value];
    }
    assert components[..|components|] == components;
    res := Ok(result);
  }

  method ParseWith(path: string, convert: Converter) returns (res: Result<seq<nat>>)
    ensures res == Meaning(path, convert)
  {
    var result: seq<nat> := [];
    var components := Split(path);
    if TrimSpace(components[0]) == [] {
      return Err(AmbiguousPath);
    } else if TrimSpace(components[0]) == "m" {
      components := components[1..];
    } else {
      result := result + DEFAULT_ROOT;
    }
    if |components| == 0 {
      return Err(EmptyPath);
    }
    res := ParseComponents(components, result, convert);
    if res.Ok? {
      ghost var rest := ParseAll(components, convert).value;
      assert [] + rest == rest && DEFAULT_ROOT == [] + DEFAULT_ROOT;
    }
  }

  // ------------------------------------------------------------------ round trip

  /** The converter reads decimal numbers. */
  ghost predicate ReadsDecimals(convert: Converter) {
    forall n: nat :: convert(Decimal(n)) == Some(n)
  }

  lemma NothingToTrim(s: string)
    requires s == [] || (!IsSpace(s[0]) && !IsSpace(s[|s| - 1]))
    ensures TrimSpace(s) == s
  {
  }

  predicate IsNumeral(s: string) {
    |s| > 0 && forall i :: 0 <= i < |s| ==> '0' <= s[i] <= '9'
  }

  lemma HardenedBack(digits: string, n: nat, convert: Converter)
    requires IsNumeral(digits) && convert(digits) == Some(n) && n < HARDENED
    ensures ParseComponent(digits + ['\''], convert) == Ok(HARDENED + n)
  {
    var s := digits + ['\''];
    NothingToTrim(s);
    assert s[..|s| - 1] == digits;
    NothingToTrim(digits);
  }

  lemma PlainBack(digits: string, n: nat, convert: Converter)
    requires IsNumeral(digits) && convert(digits) == Some(n) && n <= MAX_UINT32
    ensures ParseComponent(digits, convert) == Ok(n)
  {
    NothingToTrim(digits);
  }

  lemma ComponentBack(c: nat, convert: Converter)
    requires c <= MAX_UINT32 && ReadsDecimals(convert)
    ensures ParseComponent(Component(c), convert) == Ok(c)
  {
    var n, digits := Plain(c), Decimal(Plain(c));
    if c >= HARDENED {
      HardenedBack(digits, n, convert);
    } else {
      PlainBack(digits, n, convert);
    }
  }

  lemma LastOff(path: seq<nat>)
    requires path != []
    ensures path == path[..|path| - 1] + [path[|path| - 1]]
  {
  }

  lemma SplitM()
    ensures Split("m") == ["m"]
  {
    var s: string := "m";
    assert s[..0] == [] && [] + [s[0]] == s;
    assert Split(s[..0]) == [[]];
  }

  /** One more component, printed and parsed. */
  lemma LastBack(path: seq<nat>, before: seq<string>, convert: Converter)
    requires path != [] && path[|path| - 1] <= MAX_UINT32 && ReadsDecimals(convert)
    requires ParseAll(before, convert) == Ok(path[..|path| - 1])
    ensures ParseAll(before + [Component(path[|path| - 1])], convert) == Ok(path)
  {
    var c := path[|path| - 1];
    ComponentBack(c, convert);
    ParseOneMore(before, Component(c), convert);
    LastOff(path);
  }

  lemma {:induction false} SplitPrinted(path: seq<nat>, convert: Converter) returns (parts: seq<string>)
    requires ReadsDecimals(convert) && forall i :: 0 <= i < |path| ==> path[i] <= MAX_UINT32
    ensures Split(Printed(path)) == ["m"] + parts && |parts| == |path|
    ensures ParseAll(parts, convert) == Ok(path)
  {
    if path == [] {
      SplitM();
      parts := [];
      assert ["m"] + parts == ["m"];
    } else {
      var n := |path| - 1;
      var component := Component(path[n]);
      var before := SplitPrinted(path[..n], convert);
      SplitExtended(Printed(path[..n]), component);
      LastBack(path, before, convert);
      parts := before + [component];
      assert ["m"] + before + [component] == ["m"] + parts;
    }
  }

  lemma AbsolutePath(parts: seq<string>, convert: Converter)
    ensures MeaningOf(["m"] + parts, convert) == if parts == [] then Err(EmptyPath) else ParseAll(parts, convert)
  {
    NothingToTrim("m");
    assert (["m"] + parts)[1..] == parts;
  }

  /** Every nonempty path comes back from its printed form; the empty one is refused. */
  lemma RoundTrip(path: seq<nat>, convert: Converter)
    requires ReadsDecimals(convert) && forall i :: 0 <= i < |path| ==> path[i] <= MAX_UINT32
    ensures Meaning(Printed(path), convert) == if path == [] then Err(EmptyPath) else Ok(path)
  {
    var parts := SplitPrinted(path, convert);
    AbsolutePath(parts, convert);
  }

  // ------------------------------------------------------------------ the converter

  /** The value of a digit, and 36 for everything else. */
  function DigitOf(c: char): nat {
    if '0' <= c <= '9' then c as nat - '0' as nat
    else if 'a' <= c <= 'z' then c as nat - 'a' as nat + 10
    else if 'A' <= c <= 'Z' then c as nat - 'A' as nat + 10
    else 36
  }

  /** The value of a string of digits and underscores. */
  function Digits(s: string, base: nat): Option<nat> {
    if s == [] then Some(0)
    else
      var c, rest := s[|s| - 1], Digits(s[..|s| - 1], base);
      if rest.None? then None
      else if c == '_' then rest
      else if DigitOf(c) < base then Some(base * rest.value + DigitOf(c))
      else None
  }

  /** Every underscore stands between two digits, where the prefix counts as a digit. */
  predicate Separated(s: string, prefixed: bool) {
    forall i :: 0 <= i < |s| && s[i] == '_' ==>
      i + 1 < |s| && if i == 0 then prefixed else s[i - 1] != '_'
  }

  function ReadDigits(s: string, base: nat, prefixed: bool): Option<nat> {
    if s != [] && Separated(s, prefixed) then Digits(s, base) else None
  }

  /** A number without a sign, in the base that its prefix names. */
  function ReadNat(s: string): Option<nat> {
    if |s| < 2 || s[0] != '0' then ReadDigits(s, 10, false)
    else if s[1] == 'b' || s[1] == 'B' then ReadDigits(s[2..], 2, true)
    else if s[1] == 'o' || s[1] == 'O' then ReadDigits(s[2..], 8, true)
    else if s[1] == 'x' || s[1] == 'X' then ReadDigits(s[2..], 16, true)
    else ReadDigits(s[1..], 8, true)
  }

  /** `big.Int.SetString` with base 0. */
  function ReadInt(s: string): Option<int> {
    var signed := s != [] && (s[0] == '-' || s[0] == '+');
    var n := ReadNat(if signed then s[1..] else s);
    if n.None? then None
    else
      var v: int := n.value;
      Some(if signed && s[0] == '-' then -v else v)
  }

  /** The whole parser. */
  method Parse(path: string) returns (res: Result<seq<nat>>)
    ensures res == Meaning(path, ReadInt)
  {
    res := ParseWith(path, ReadInt);
  }

  lemma {:induction false} DigitsOfDecimal(n: nat)
    ensures Digits(Decimal(n), 10) == Some(n)
    ensures n > 0 ==> Decimal(n)[0] != '0'
  {
    var s := Decimal(n);
    if n < 10 {
      assert s[..0] == [];
    } else {
      DigitsOfDecimal(n / 10);
      assert s[..|s| - 1] == Decimal(n / 10);
    }
  }

  /** It reads every number that is printed. */
  lemma ReadIntReads()
    ensures ReadsDecimals(ReadInt)
  {
    forall n: nat ensures ReadInt(Decimal(n)) == Some(n) {
      DigitsOfDecimal(n);
      assert Separated(Decimal(n), false);
    }
  }

  /** So parsing undoes printing. */
  lemma ParsePrinted(path: seq<nat>)
    requires forall i :: 0 <= i < |path| ==> path[i] <= MAX_UINT32
    ensures Meaning(Printed(path), ReadInt) == if path == [] then Err(EmptyPath) else Ok(path)
  {
    ReadIntReads();
    RoundTrip(path, ReadInt);
  }

  // ------------------------------------------------------------------ relative paths and refusals

  /** The printed form of a relative path. */
  function Relative(path: seq<nat>): string
    requires path != []
  {
    var n := |path| - 1;
    if n == 0 then Component(path[0]) else Relative(path[..n]) + ['/'] + Component(path[n])
  }

  function Components(path: seq<nat>): seq<string> {
    if path == [] then [] else Components(path[..|path| - 1]) + [Component(path[|path| - 1])]
  }

  lemma {:induction false} ComponentsBack(path: seq<nat>, convert: Converter)
    requires ReadsDecimals(convert) && forall i :: 0 <= i < |path| ==> path[i] <= MAX_UINT32
    ensures ParseAll(Components(path), convert) == Ok(path)
  {
    if path != [] {
      ComponentsBack(path[..|path| - 1], convert);
      LastBack(path, Components(path[..|path| - 1]), convert);
    }
  }

  lemma {:induction false} SplitPart(part: string)
    requires '/' !in part
    ensures Split(part) == [part]
  {
    if part != [] {
      var rest := part[..|part| - 1];
      SplitPart(rest);
      assert part == rest + [part[|part| - 1]];
    }
  }

  lemma {:induction false} SplitRelative(path: seq<nat>)
    requires path != []
    ensures Split(Relative(path)) == Components(path)
  {
    var n := |path| - 1;
    var before, last := path[..n], Component(path[n]);
    if n == 0 {
      SplitPart(last);
      assert before == [];
    } else {
      SplitRelative(before);
      SplitExtended(Relative(before), last);
    }
  }

  lemma {:induction false} FirstComponent(path: seq<nat>)
    requires path != []
    ensures Components(path) != [] && Components(path)[0] == Component(path[0])
  {
    if |path| > 1 {
      FirstComponent(path[..|path| - 1]);
    } else {
      assert path[..0] == [];
    }
  }

  /** A component that is printed is neither blank nor m. */
  lemma ComponentStarts(c: nat)
    ensures TrimSpace(Component(c)) != [] && TrimSpace(Component(c)) != "m"
  {
    NothingToTrim(Component(c));
    assert Component(c)[0] == Decimal(Plain(c))[0];
  }

  lemma RelativeMeaning(parts: seq<string>, path: seq<nat>, convert: Converter)
    requires parts != [] && TrimSpace(parts[0]) != [] && TrimSpace(parts[0]) != "m"
    requires ParseAll(parts, convert) == Ok(path)
    ensures MeaningOf(parts, convert) == Ok([0x8000_002C, 0x8000_003C, 0x8000_0000, 0] + path)
  {
  }

  /** A relative path continues the default root m/44'/60'/0'/0. */
  lemma RelativePath(path: seq<nat>)
    requires path != [] && forall i :: 0 <= i < |path| ==> path[i] <= MAX_UINT32
    ensures Meaning(Relative(path), ReadInt) == Ok([0x8000_002C, 0x8000_003C, 0x8000_0000, 0] + path)
  {
    ReadIntReads();
    ComponentsBack(path, ReadInt);
    SplitRelative(path);
    FirstComponent(path);
    ComponentStarts(path[0]);
    RelativeMeaning(Components(path), path, ReadInt);
  }

  /** What is refused: a path that starts blank, and a number that does not fit. */
  lemma Refusals(path: string, n: nat)
    ensures TrimSpace(Split(path)[0]) == [] ==> Meaning(path, ReadInt) == Err(AmbiguousPath)
    ensures n > 0xFFFF_FFFF ==> ParseComponent(Decimal(n), ReadInt) == Err(OutOfRange)
    ensures n > 0x7FFF_FFFF ==> ParseComponent(Decimal(n) + ['\''], ReadInt) == Err(OutOfRange)
  {
    ReadIntReads();
    var digits := Decimal(n);
    NothingToTrim(digits);
    NothingToTrim(digits + ['\'']);
    assert (digits + ['\''])[..|digits|] == digits;
  }
}
