// Hierarchical deterministic wallet paths (accounts/hd.go): parsing and printing.
module DerivationPath {
  import opened Base

  type U32 = x: nat | x < 0x1_0000_0000

  const HARDENED: nat := 0x8000_0000

  const DEFAULT_ROOT: seq<U32> := [HARDENED + 44, HARDENED + 60, HARDENED + 0, 0]

  datatype PathError = Ambiguous | Empty | InvalidComponent | OutOfRange

  datatype Result<T> = Ok(value: T) | Err(error: PathError)

  // ----- The library functions the parser is built from.

  // strings.Split on '/': always at least one part.
  function Split(s: string): (parts: seq<string>)
    ensures |parts| >= 1
  {
    if s == [] then [[]]
    else
      var rest := Split(s[1..]);
      if s[0] == '/' then [[]] + rest else [[s[0]] + rest[0]] + rest[1..]
  }

  // unicode.IsSpace.
  predicate IsSpace(c: char) {
    c in {'\t', '\n', '\U{0B}', '\U{0C}', '\r', ' ', '\U{85}', '\U{A0}', '\U{1680}', '\U{2028}', '\U{2029}',
          '\U{202F}', '\U{205F}', '\U{3000}'} || '\U{2000}' <= c <= '\U{200A}'
  }

  function TrimLeft(s: string): (r: string) {
    if s != [] && IsSpace(s[0]) then TrimLeft(s[1..]) else s
  }

  function TrimRight(s: string): (r: string) {
    if s != [] && IsSpace(s[|s| - 1]) then TrimRight(s[..|s| - 1]) else s
  }

  function TrimSpace(s: string): (r: string) {
    TrimRight(TrimLeft(s))
  }

  // The value of a digit in bases up to 16; 36 for anything else.
  function DigitValue(c: char): (d: nat) {
    if '0' <= c <= '9' then c as int - '0' as int
    else if 'a' <= c <= 'z' then c as int - 'a' as int + 10
    else if 'A' <= c <= 'Z' then c as int - 'A' as int + 10
    else 36
  }

  // Digits with single underscores between them; `afterDigit` tells whether an underscore
  // or the end may come next.
  function Digits(s: string, base: nat, afterDigit: bool, acc: nat): (r: Option<nat>) {
    if s == [] then (if afterDigit then Some(acc) else None)
    else if s[0] == '_' then (if afterDigit then Digits(s[1..], base, false, acc) else None)
    else if DigitValue(s[0]) < base then Digits(s[1..], base, true, acc * base + DigitValue(s[0]))
    else None
  }

  // big.Int.SetString with base 0: optional sign, then decimal, or a prefix for base 2, 8 or 16.
  function SetString(s: string): (r: Option<int>) {
    var negative := s != [] && s[0] == '-';
    var t := if s != [] && s[0] in {'+', '-'} then s[1..] else s;
    var n :=
      if |t| < 2 || t[0] != '0' then Digits(t, 10, false, 0)
      else if t[1] in {'b', 'B'} then (if |t| == 2 then None else Digits(t[2..], 2, true, 0))
      else if t[1] in {'o', 'O'} then (if |t| == 2 then None else Digits(t[2..], 8, true, 0))
      else if t[1] in {'x', 'X'} then (if |t| == 2 then None else Digits(t[2..], 16, true, 0))
      else Digits(t[1..], 8, true, 0);
    match n
    case None => None
    case Some(v) =>
      var x: int := v;
      Some(if negative then -x else x)
  }

  // %d of a natural number.
  function Decimal(n: nat): (s: string)
    ensures s != []
  {
    if n < 10 then [Digit(n)] else Decimal(n / 10) + [Digit(n % 10)]
  }

  function Digit(d: nat): (c: char)
    requires d < 10
    ensures '0' <= c <= '9' && DigitValue(c) == d && !IsSpace(c)
  {
    ('0' as int + d) as char
  }

  // ----- Parsing.

  function ParseComponent(component: string): (r: Result<U32>) {
    var c := TrimSpace(component);
    var hardened := c != [] && c[|c| - 1] == '\'';
    var offset := if hardened then HARDENED else 0;
    var digits := if hardened then TrimSpace(c[..|c| - 1]) else c;
    match SetString(digits)
    case None => Err(InvalidComponent)
    case Some(v) =>
      if v < 0 || v > 0xFFFF_FFFF - offset then Err(OutOfRange) else Ok(offset + v)
  }

  function ParseAll(components: seq<string>): (r: Result<seq<U32>>) {
    if components == [] then Ok([])
    else
      match ParseComponent(components[0])
      case Err(e) => Err(e)
      case Ok(v) =>
        match ParseAll(components[1..])
        case Err(e) => Err(e)
        case Ok(vs) => Ok([v] + vs)
  }

  // What a path string denotes.
  function Parse(path: string): (r: Result<seq<U32>>) {
    var components := Split(path);
    var first := TrimSpace(components[0]);
    if first == [] then Err(Ambiguous)
    else
      var prefix := if first == ['m'] then [] else DEFAULT_ROOT;
      var rest := if first == ['m'] then components[1..] else components;
      if rest == [] then Err(Empty)
      else
        match ParseAll(rest)
        case Err(e) => Err(e)
        case Ok(vs) => Ok(prefix + vs)
  }

  lemma {:induction false} ParseAllStep(components: seq<string>, k: nat)
    requires k < |components| && ParseAll(components[..k]).Ok?
    ensures ParseComponent(components[k]).Ok? ==>
              ParseAll(components[..k + 1]) == Ok(ParseAll(components[..k]).value + [ParseComponent(components[k]).value])
    ensures ParseComponent(components[k]).Err? ==> ParseAll(components) == Err(ParseComponent(components[k]).error)
    decreases k
  {
    hide ParseComponent;
    var v := ParseComponent(components[0]);
    assert components[..k + 1][0] == components[0];
    if k == 0 {
      assert components[..1][1..] == [];
      assert v.Ok? ==> [v.value] + [] == [] + [v.value];
    } else {
      var tail := components[1..];
      assert components[..k][0] == components[0] && components[..k][1..] == tail[..k - 1];
      assert components[..k + 1][1..] == tail[..k];
      ParseAllStep(tail, k - 1);
      var vs, w := ParseAll(tail[..k - 1]), ParseComponent(components[k]);
      assert w.Ok? ==> [v.value] + (vs.value + [w.value]) == ([v.value] + vs.value) + [w.value];
    }
  }

  // ParseDerivationPath: the loop over the components.
  method ParseDerivationPath(path: string) returns (r: Result<seq<U32>>)
    ensures r == Parse(path)
  {
    var result: seq<U32> := [];
    var components := Split(path);
    if TrimSpace(components[0]) == [] {
      return Err(Ambiguous);
    } else if TrimSpace(components[0]) == ['m'] {
      components := components[1..];
    } else {
      result := DEFAULT_ROOT;
    }
    if |components| == 0 {
      return Err(Empty);
    }
    ghost var prefix := result;
    for k := 0 to |components|
      invariant ParseAll(components[..k]).Ok? && result == prefix + ParseAll(components[..k]).value
    {
      ParseAllStep(components, k);
      var value := ParseComponent(components[k]);
      if value.Err? {
        return Err(value.error);
      }
      result := result + [value.value];
    }
    assert components[..|components|] == components;
    r := Ok(result);
  }

  // ----- Printing.

  function PrintComponent(v: U32): (s: string) {
    if v >= HARDENED then Decimal(v - HARDENED) + ['\''] else Decimal(v)
  }

  function PrintFrom(path: seq<U32>): (s: string) {
    if path == [] then [] else ['/'] + PrintComponent(path[0]) + PrintFrom(path[1..])
  }

  // The canonical text of a path.
  function Print(path: seq<U32>): (s: string) {
    ['m'] + PrintFrom(path)
  }

  lemma {:induction false} PrintSnoc(path: seq<U32>, v: U32)
    ensures PrintFrom(path + [v]) == PrintFrom(path) + (['/'] + PrintComponent(v))
  {
    if path == [] {
      assert path + [v] == [v] && [v][1..] == [];
      assert PrintFrom([v]) == ['/'] + PrintComponent(v) + [];
    } else {
      assert (path + [v])[1..] == path[1..] + [v];
      PrintSnoc(path[1..], v);
    }
  }

  // DerivationPath.String: appends component by component.
  method PathString(path: seq<U32>) returns (result: string)
    ensures result == Print(path)
  {
    hide PrintFrom, Decimal;
    assert PrintFrom(path[..0]) == [] by { PrintNothing(); }
    result := ['m'];
    for i := 0 to |path|
      invariant result == Print(path[..i])
    {
      var component: nat := path[i];
      var hardened := false;
      if component >= HARDENED {
        component := component - HARDENED;
        hardened := true;
      }
      assert path[..i + 1] == path[..i] + [path[i]];
      PrintSnoc(path[..i], path[i]);
      ghost var before := result;
      result := result + (['/'] + Decimal(component));
      if hardened {
        result := result + ['\''];
      }
      assert result == before + (['/'] + PrintComponent(path[i]));
    }
    assert path[..|path|] == path;
  }

  lemma PrintNothing()
    ensures PrintFrom([]) == []
  {
  }

  // ----- Round trip.

  // Text the splitter and the trimmer leave alone.
  ghost predicate Plain(s: string) {
    s != [] && '/' !in s && !IsSpace(s[0]) && !IsSpace(s[|s| - 1])
  }

  lemma PlainTrims(s: string)
    requires Plain(s)
    ensures TrimSpace(s) == s
  {
  }

  lemma {:induction false} DecimalIsPlain(n: nat)
    ensures Plain(Decimal(n)) && (forall c :: c in Decimal(n) ==> '0' <= c <= '9')
    ensures Decimal(n)[0] == '0' <==> n == 0
    ensures n > 0 ==> Decimal(n)[0] != '0'
  {
    if n >= 10 {
      DecimalIsPlain(n / 10);
    }
  }

  // One more decimal digit.
  lemma {:induction false} DigitsSnoc(s: string, afterDigit: bool, acc: nat, d: nat)
    requires d < 10 && Digits(s, 10, afterDigit, acc).Some? && forall c :: c in s ==> '0' <= c <= '9'
    ensures Digits(s + [Digit(d)], 10, afterDigit, acc) == Some(Digits(s, 10, afterDigit, acc).value * 10 + d)
    decreases |s|
  {
    if s == [] {
      assert s + [Digit(d)] == [Digit(d)] && [Digit(d)][1..] == [];
    } else {
      assert (s + [Digit(d)])[1..] == s[1..] + [Digit(d)];
      assert s[0] in s && forall c :: c in s[1..] ==> c in s;
      DigitsSnoc(s[1..], true, acc * 10 + DigitValue(s[0]), d);
    }
  }

  lemma {:induction false} DecimalDigits(n: nat)
    ensures Digits(Decimal(n), 10, false, 0) == Some(n)
  {
    if n < 10 {
      assert Decimal(n)[1..] == [];
    } else {
      DecimalDigits(n / 10);
      DecimalIsPlain(n / 10);
      DigitsSnoc(Decimal(n / 10), false, 0, n % 10);
    }
  }

  // SetString reads back what %d printed.
  lemma DecimalRoundTrip(n: nat)
    ensures SetString(Decimal(n)) == Some(n)
  {
    DecimalDigits(n);
    DecimalIsPlain(n);
    assert Decimal(n)[0] !in {'+', '-'};
  }

  lemma ComponentRoundTrip(v: U32)
    ensures Plain(PrintComponent(v)) && ParseComponent(PrintComponent(v)) == Ok(v)
  {
    var n := if v >= HARDENED then v - HARDENED else v;
    DecimalIsPlain(n);
    DecimalRoundTrip(n);
    PlainTrims(Decimal(n));
    var s := PrintComponent(v);
    PlainTrims(s);
    if v >= HARDENED {
      assert s[..|s| - 1] == Decimal(n);
    } else {
      assert s[|s| - 1] in s;
    }
  }

  lemma {:induction false} SplitPlain(part: string, rest: string)
    requires '/' !in part
    ensures Split(part) == [part]
    ensures Split(part + ['/'] + rest) == [part] + Split(rest)
  {
    if part == [] {
      assert part + ['/'] + rest == ['/'] + rest;
    } else {
      assert (part + ['/'] + rest)[1..] == part[1..] + ['/'] + rest;
      assert part[0] in part && part == [part[0]] + part[1..];
      SplitPlain(part[1..], rest);
    }
  }

  ghost function Components(path: seq<U32>): seq<string> {
    seq(|path|, i requires 0 <= i < |path| => PrintComponent(path[i]))
  }

  lemma {:induction false} SplitPrinted(part: string, path: seq<U32>)
    requires '/' !in part
    ensures Split(part + PrintFrom(path)) == [part] + Components(path)
    decreases |path|
  {
    hide Split, PrintComponent, ParseComponent;
    if path == [] {
      assert part + PrintFrom(path) == part;
      SplitPlain(part, []);
    } else {
      var c := PrintComponent(path[0]);
      ComponentRoundTrip(path[0]);
      assert part + PrintFrom(path) == part + ['/'] + (c + PrintFrom(path[1..]));
      SplitPlain(part, c + PrintFrom(path[1..]));
      SplitPrinted(c, path[1..]);
      assert Components(path) == [c] + Components(path[1..]);
    }
  }

  lemma {:induction false} ParsePrinted(path: seq<U32>)
    ensures ParseAll(Components(path)) == Ok(path)
  {
    hide ParseComponent, PrintComponent;
    if path != [] {
      ComponentRoundTrip(path[0]);
      assert Components(path)[1..] == Components(path[1..]);
      ParsePrinted(path[1..]);
      assert [path[0]] + path[1..] == path;
    }
  }

  // Parsing the printed text gives the path back, hardened components included; only the
  // empty path prints to a text that is rejected.
  lemma RoundTrip(path: seq<U32>)
    ensures Parse(Print(path)) == if path == [] then Err(Empty) else Ok(path)
  {
    hide ParseComponent, PrintComponent;
    SplitPrinted(['m'], path);
    ParsePrinted(path);
    PlainTrims(['m']);
    assert ([['m']] + Components(path))[1..] == Components(path);
    assert [] + path == path;
  }

  // Without the leading "m/" the path is taken relative to the default root.
  lemma RelativeRoundTrip(path: seq<U32>)
    requires path != []
    ensures Parse(Print(path)[2..]) == Ok(DEFAULT_ROOT + path)
  {
    hide ParseComponent, PrintComponent;
    var c := PrintComponent(path[0]);
    ComponentRoundTrip(path[0]);
    assert Print(path)[2..] == c + PrintFrom(path[1..]);
    SplitPrinted(c, path[1..]);
    assert Components(path) == [c] + Components(path[1..]);
    ParsePrinted(path);
    PlainTrims(c);
    NotTheRoot(path[0]);
  }

  lemma NotTheRoot(v: U32)
    ensures PrintComponent(v) != ['m']
  {
    DecimalIsPlain(if v >= HARDENED then v - HARDENED else v);
  }
}
