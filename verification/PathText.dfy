// What the texts accepted by accounts/hd.go mean: numbers in every base, spaces, hardened
// components and the default root.
module PathText {
  import opened Base
  import opened DerivationPath

  // ----- Numbers.

  ghost function PlaceValue(digits: string, base: nat): nat {
    if digits == [] then 0
    else PlaceValue(digits[..|digits| - 1], base) * base + DigitValue(digits[|digits| - 1])
  }

  ghost function WithoutUnderscores(s: string): string {
    if s == [] then [] else (if s[0] == '_' then [] else [s[0]]) + WithoutUnderscores(s[1..])
  }

  // Digits of the base with single underscores between them; after a prefix there may be one
  // in front.
  ghost predicate Numeral(s: string, base: nat, afterPrefix: bool) {
    && (afterPrefix || s != [])
    && (s != [] ==> s[|s| - 1] != '_' && (afterPrefix || s[0] != '_'))
    && (forall i :: 0 <= i < |s| ==> s[i] == '_' || DigitValue(s[i]) < base)
    && (forall i, j :: 0 <= i < j < |s| && j == i + 1 ==> s[i] != '_' || s[j] != '_')
  }

  // Reading from the left, as the scanner does.
  ghost function Horner(digits: string, base: nat, acc: nat): nat {
    if digits == [] then acc else Horner(digits[1..], base, acc * base + DigitValue(digits[0]))
  }

  lemma {:induction false} HornerSnoc(digits: string, base: nat, acc: nat, c: char)
    ensures Horner(digits + [c], base, acc) == Horner(digits, base, acc) * base + DigitValue(c)
    decreases |digits|
  {
    hide DigitValue;
    if digits == [] {
      assert (digits + [c])[1..] == [];
    } else {
      assert (digits + [c])[1..] == digits[1..] + [c];
      HornerSnoc(digits[1..], base, acc * base + DigitValue(digits[0]), c);
    }
  }

  lemma {:induction false} HornerIsPlaceValue(digits: string, base: nat)
    ensures Horner(digits, base, 0) == PlaceValue(digits, base)
    decreases |digits|
  {
    hide DigitValue;
    if digits != [] {
      var init, last := digits[..|digits| - 1], digits[|digits| - 1];
      HornerIsPlaceValue(init, base);
      HornerSnoc(init, base, 0, last);
      assert init + [last] == digits;
    }
  }

  lemma NumeralTail(s: string, base: nat, afterPrefix: bool)
    requires s != [] && base <= 36
    ensures s[0] == '_' ==> (Numeral(s, base, afterPrefix) <==> afterPrefix && Numeral(s[1..], base, false))
    ensures s[0] != '_' ==> (Numeral(s, base, afterPrefix) <==> DigitValue(s[0]) < base && Numeral(s[1..], base, true))
  {
    hide DigitValue;
    var t := s[1..];
    assert forall i :: 0 <= i < |t| ==> t[i] == s[i + 1];
    assert forall i :: 0 < i < |s| ==> s[i] == t[i - 1];
  }

  lemma {:induction false} DigitsAreHorner(s: string, base: nat, afterPrefix: bool, acc: nat)
    requires base <= 36
    ensures Digits(s, base, afterPrefix, acc) ==
              if Numeral(s, base, afterPrefix) then Some(Horner(WithoutUnderscores(s), base, acc)) else None
    decreases |s|
  {
    if s != [] {
      hide Numeral;
      NumeralTail(s, base, afterPrefix);
      if s[0] == '_' {
        DigitsAreHorner(s[1..], base, false, acc);
        assert [] + WithoutUnderscores(s[1..]) == WithoutUnderscores(s[1..]);
      } else {
        DigitsAreHorner(s[1..], base, true, acc * base + DigitValue(s[0]));
        var rest := WithoutUnderscores(s[1..]);
        assert ([s[0]] + rest)[1..] == rest;
      }
    }
  }

  // The value of a numeral, None for any other text.
  ghost function ValueOf(s: string, base: nat, afterPrefix: bool): Option<int> {
    if Numeral(s, base, afterPrefix) then Some(PlaceValue(WithoutUnderscores(s), base)) else None
  }

  lemma DigitsMeaning(s: string, base: nat, afterPrefix: bool)
    requires base <= 36
    ensures Digits(s, base, afterPrefix, 0).Some? <==> ValueOf(s, base, afterPrefix).Some?
    ensures Digits(s, base, afterPrefix, 0).Some? ==>
              Some(Digits(s, base, afterPrefix, 0).value as int) == ValueOf(s, base, afterPrefix)
  {
    hide Digits, Numeral, Horner, PlaceValue;
    DigitsAreHorner(s, base, afterPrefix, 0);
    HornerIsPlaceValue(WithoutUnderscores(s), base);
  }

  // Texts without a sign or a leading zero are decimal.
  lemma DecimalText(s: string)
    requires s == [] || s[0] !in {'0', '+', '-'}
    ensures SetString(s) == ValueOf(s, 10, false)
  {
    hide Digits, ValueOf;
    DigitsMeaning(s, 10, false);
  }

  // A prefix, in either case, names base 2, 8 or 16; a bare prefix is no number.
  lemma PrefixedText(s: string)
    ensures SetString("0b" + s) == SetString("0B" + s) == (if s == [] then None else ValueOf(s, 2, true))
    ensures SetString("0o" + s) == SetString("0O" + s) == (if s == [] then None else ValueOf(s, 8, true))
    ensures SetString("0x" + s) == SetString("0X" + s) == (if s == [] then None else ValueOf(s, 16, true))
  {
    PrefixedWith('b', s, 2);
    PrefixedWith('B', s, 2);
    PrefixedWith('o', s, 8);
    PrefixedWith('O', s, 8);
    PrefixedWith('x', s, 16);
    PrefixedWith('X', s, 16);
    hide SetString, ValueOf;
    assert "0b" == ['0', 'b'] && "0B" == ['0', 'B'] && "0o" == ['0', 'o'] && "0O" == ['0', 'O'];
    assert "0x" == ['0', 'x'] && "0X" == ['0', 'X'];
  }

  lemma PrefixedWith(c: char, s: string, base: nat)
    requires (c in {'b', 'B'} && base == 2) || (c in {'o', 'O'} && base == 8) || (c in {'x', 'X'} && base == 16)
    ensures SetString(['0', c] + s) == if s == [] then None else ValueOf(s, base, true)
  {
    hide Digits, ValueOf;
    var t := ['0', c] + s;
    assert t[2..] == s;
    DigitsMeaning(s, base, true);
  }

  // A leading zero alone means octal.
  lemma OctalText(s: string)
    requires s != [] && s[0] !in {'b', 'B', 'o', 'O', 'x', 'X'}
    ensures SetString(['0'] + s) == ValueOf(s, 8, true)
  {
    hide Digits, ValueOf;
    assert (['0'] + s)[1..] == s;
    DigitsMeaning(s, 8, true);
  }

  lemma SignedText(s: string)
    requires s == [] || s[0] !in {'+', '-'}
    ensures SetString(['+'] + s) == SetString(s)
    ensures SetString(['-'] + s) == if SetString(s).None? then None else Some(-SetString(s).value)
  {
    hide Digits;
    assert (['+'] + s)[1..] == s && (['-'] + s)[1..] == s;
  }

  lemma DigitsInOrder(d: nat)
    requires d < 16
    ensures DigitValue("0123456789abcdef"[d]) == d == DigitValue("0123456789ABCDEF"[d])
  {
    var lower, upper := "0123456789abcdef", "0123456789ABCDEF";
    assert d < 10 ==> lower[d] as int == '0' as int + d && upper[d] == lower[d];
    assert d >= 10 ==> lower[d] as int == 'a' as int + d - 10 && upper[d] as int == 'A' as int + d - 10;
  }

  // ----- Spaces.

  ghost predicate Blank(s: string) {
    forall i :: 0 <= i < |s| ==> IsSpace(s[i])
  }

  ghost predicate Trimmed(s: string) {
    s != [] ==> !IsSpace(s[0]) && !IsSpace(s[|s| - 1])
  }

  lemma AsciiSpaces(c: char)
    requires c < '\U{80}'
    ensures IsSpace(c) <==> '\t' <= c <= '\r' || c == ' '
  {
  }

  lemma {:induction false} TrimLeftBlank(pad: string, s: string)
    requires Blank(pad) && (s == [] || !IsSpace(s[0]))
    ensures TrimLeft(pad + s) == s
    decreases |pad|
  {
    hide IsSpace;
    if pad == [] {
      assert pad + s == s;
    } else {
      assert (pad + s)[1..] == pad[1..] + s;
      TrimLeftBlank(pad[1..], s);
    }
  }

  lemma {:induction false} TrimRightBlank(s: string, pad: string)
    requires Blank(pad) && (s == [] || !IsSpace(s[|s| - 1]))
    ensures TrimRight(s + pad) == s
    decreases |pad|
  {
    hide IsSpace;
    var t := s + pad;
    if pad == [] {
      assert t == s;
    } else {
      assert t[..|t| - 1] == s + pad[..|pad| - 1];
      TrimRightBlank(s, pad[..|pad| - 1]);
    }
  }

  // Spaces around a text go, those inside stay.
  lemma TrimPadded(before: string, s: string, after: string)
    requires Blank(before) && Blank(after) && Trimmed(s)
    ensures TrimSpace(before + s + after) == s
  {
    hide IsSpace, TrimLeft, TrimRight;
    if s == [] {
      var all := before + after;
      assert before + s + after == all + s;
      TrimLeftBlank(all, s);
      TrimRightBlank(s, s);
      assert s + s == s;
    } else {
      assert before + s + after == before + (s + after);
      TrimLeftBlank(before, s + after);
      TrimRightBlank(s, after);
    }
  }

  // ----- Components and paths.

  // A component is its number; an apostrophe adds 2^31; what does not fit 32 bits is refused.
  // Spaces around the number and around the component do not matter.
  lemma ComponentMeaning(n: nat, before: string, inner: string, after: string)
    requires Blank(before) && Blank(inner) && Blank(after)
    ensures ParseComponent(before + Decimal(n) + after) == if n < 0x1_0000_0000 then Ok(n) else Err(OutOfRange)
    ensures ParseComponent(before + (Decimal(n) + inner + ['\'']) + after) ==
              if n < 0x8000_0000 then Ok(0x8000_0000 + n) else Err(OutOfRange)
  {
    DecimalIsPlain(n);
    DecimalRoundTrip(n);
    var digits, hardened := Decimal(n), Decimal(n) + inner + ['\''];
    assert digits[|digits| - 1] in digits;
    assert hardened[0] == digits[0] && hardened[..|hardened| - 1] == [] + digits + inner;
    hide Decimal, SetString, TrimSpace;
    TrimPadded(before, digits, after);
    TrimPadded(before, hardened, after);
    TrimPadded([], digits, inner);
  }

  // A path that begins with a slash, or with nothing at all, is ambiguous.
  lemma LeadingSlash(s: string)
    ensures Parse([]) == Parse(['/'] + s) == Err(Ambiguous)
  {
    hide ParseAll, Split;
    SplitPlain([], s);
    assert [] + ['/'] + s == ['/'] + s;
    assert TrimSpace([]) == [];
  }

  lemma PrintNext(v: U32, rest: seq<U32>)
    ensures PrintFrom([v] + rest) == ['/'] + PrintComponent(v) + PrintFrom(rest)
  {
    assert ([v] + rest)[1..] == rest;
  }

  lemma RootComponents()
    ensures PrintComponent(0) == "0" && PrintComponent(HARDENED) == "0'"
    ensures PrintComponent(HARDENED + 44) == "44'" && PrintComponent(HARDENED + 60) == "60'"
  {
    assert Decimal(4) == "4" && Decimal(6) == "6";
  }

  lemma RootText()
    ensures Print(DEFAULT_ROOT) == "m/44'/60'/0'/0"
  {
    hide PrintFrom, PrintComponent;
    RootComponents();
    PrintNothing();
    PrintNext(0, []);
    PrintNext(HARDENED, [0]);
    PrintNext(HARDENED + 60, [HARDENED, 0]);
    PrintNext(HARDENED + 44, [HARDENED + 60, HARDENED, 0]);
    assert [0] + [] == [0] && [HARDENED] + [0] == [HARDENED, 0];
    assert [HARDENED + 60] + [HARDENED, 0] == [HARDENED + 60, HARDENED, 0];
    assert [HARDENED + 44] + [HARDENED + 60, HARDENED, 0] == DEFAULT_ROOT;
    assert PrintFrom([HARDENED, 0]) == "/0'/0";
    assert PrintFrom([HARDENED + 60, HARDENED, 0]) == "/60'/0'/0";
  }

  // The default root is m/44'/60'/0'/0.
  lemma DefaultRoot()
    ensures Print(DEFAULT_ROOT) == "m/44'/60'/0'/0" && Parse("m/44'/60'/0'/0") == Ok(DEFAULT_ROOT)
  {
    hide Parse, Print;
    RootText();
    RoundTrip(DEFAULT_ROOT);
  }
}
