/** Which texts a number or string may be set to, and what a text says to a logical symbol. */
module SymbolText {
  import opened Options
  import opened Tristate
  import opened Symbols

  predicate IsDigit(c: char) {
    '0' <= c <= '9'
  }

  predicate IsHexDigit(c: char) {
    IsDigit(c) || 'a' <= c <= 'f' || 'A' <= c <= 'F'
  }

  ghost predicate AllDigits(t: string) {
    forall i :: 0 <= i < |t| ==> IsDigit(t[i])
  }

  ghost predicate AllHexDigits(t: string) {
    forall i :: 0 <= i < |t| ==> IsHexDigit(t[i])
  }

  /** Decimal digits after an optional sign, without leading zeros. */
  ghost predicate IsInt(t: string) {
    var d := if |t| > 0 && t[0] == '-' then t[1..] else t;
    d != "" && AllDigits(d) && (d[0] == '0' ==> |d| == 1)
  }

  predicate HasHexPrefix(t: string) {
    |t| >= 2 && t[0] == '0' && (t[1] == 'x' || t[1] == 'X')
  }

  /** Hexadecimal digits after an optional prefix. */
  ghost predicate IsHex(t: string) {
    var d := if HasHexPrefix(t) then t[2..] else t;
    d != "" && AllHexDigits(d)
  }

  /** Text without the character that ends a C string. */
  ghost predicate IsCString(t: string) {
    forall i :: 0 <= i < |t| ==> t[i] != '\0'
  }

  ghost predicate TextValid(kind: SymbolType, t: string) {
    match kind
    case Str => true
    case Int => IsInt(t)
    case Hex => IsHex(t)
    case _ => false
  }

  /** The character a C string pointer at `i` reads. */
  function CharAt(t: string, i: nat): char {
    if i < |t| then t[i] else '\0'
  }

  /** The value that the first character stands for. */
  function TriOf(t: string): Option<Tri> {
    var c := CharAt(t, 0);
    if c == 'y' || c == 'Y' then Some(YES)
    else if c == 'm' || c == 'M' then Some(MOD)
    else if c == 'n' || c == 'N' then Some(NO)
    else None
  }

  /** sym_string_valid for numbers and strings. */
  method PlainValid(kind: SymbolType, t: string) returns (ok: bool)
    requires IsCString(t)
    ensures ok <==> TextValid(kind, t)
  {
    match kind
    case Str => ok := true;
    case Int => ok := IntValid(t);
    case Hex => ok := HexValid(t);
    case _ => ok := false;
  }

  method IntValid(t: string) returns (ok: bool)
    requires IsCString(t)
    ensures ok <==> IsInt(t)
  {
    ghost var d := if |t| > 0 && t[0] == '-' then t[1..] else t;
    var start := if CharAt(t, 0) == '-' then 1 else 0;
    assert d == t[start..];
    var i := start;
    var ch := CharAt(t, i);
    i := i + 1;
    if !IsDigit(ch) {
      assert |d| > 0 ==> d[0] == ch;
      return false;
    }
    assert d[0] == ch;
    if ch == '0' && CharAt(t, i) != '\0' {
      assert |d| > 1;
      return false;
    }
    while CharAt(t, i) != '\0'
      invariant start < i <= |t|
      invariant forall j :: start <= j < i ==> IsDigit(t[j])
      decreases |t| - i
    {
      if !IsDigit(CharAt(t, i)) {
        assert d[i - start] == t[i];
        return false;
      }
      i := i + 1;
    }
    return true;
  }

  method HexValid(t: string) returns (ok: bool)
    requires IsCString(t)
    ensures ok <==> IsHex(t)
  {
    ghost var d := if HasHexPrefix(t) then t[2..] else t;
    var start := if CharAt(t, 0) == '0' && (CharAt(t, 1) == 'x' || CharAt(t, 1) == 'X') then 2 else 0;
    assert d == t[start..];
    var i := start;
    var ch := CharAt(t, i);
    i := i + 1;
    while true
      invariant start < i <= |t| + 1
      invariant ch == CharAt(t, i - 1)
      invariant i == start + 1 || ch != '\0'
      invariant forall j :: start <= j < i - 1 ==> j < |t| && IsHexDigit(t[j])
      decreases |t| + 1 - i
    {
      if !IsHexDigit(ch) {
        assert i - 1 < |t| ==> d[i - 1 - start] == ch;
        return false;
      }
      ch := CharAt(t, i);
      i := i + 1;
      if ch == '\0' {
        break;
      }
    }
    return true;
  }

  /** A hexadecimal number without prefix stays valid when it gets one. */
  lemma HexPrefixValid(t: string)
    requires IsHex(t) && !HasHexPrefix(t)
    ensures IsHex("0x" + t)
  {
    assert ("0x" + t)[2..] == t;
  }

  // ----- The numbers a symbol may be set to -----

  const DIGITS: string := "0123456789"

  /** A number in decimal. */
  function Decimal(n: nat): string {
    if n < 10 then [DIGITS[n]] else Decimal(n / 10) + [DIGITS[n % 10]]
  }

  function DigitOf(c: char): nat
    requires IsDigit(c)
  {
    c as int - '0' as int
  }

  lemma DigitWritten(c: char, n: nat)
    ensures IsDigit(c) ==> DigitOf(c) < 10 && DIGITS[DigitOf(c)] == c
    ensures n < 10 ==> IsDigit(DIGITS[n]) && (DIGITS[n] == '0' <==> n == 0)
  {
  }

  predicate PlainNumber(d: string) {
    d != "" && (forall i :: 0 <= i < |d| ==> IsDigit(d[i])) && (d[0] == '0' ==> |d| == 1)
  }

  lemma {:induction false} DecimalPlain(n: nat)
    ensures PlainNumber(Decimal(n)) && (Decimal(n)[0] == '0' <==> n == 0)
  {
    DigitWritten('0', n % 10);
    if n >= 10 {
      DecimalPlain(n / 10);
    }
  }

  lemma {:induction false} PlainDecimal(d: string) returns (n: nat)
    requires PlainNumber(d)
    ensures d == Decimal(n) && (n == 0 <==> d[0] == '0')
  {
    var c := d[|d| - 1];
    DigitWritten(c, DigitOf(c));
    if |d| == 1 {
      n := DigitOf(c);
    } else {
      var m := PlainDecimal(d[..|d| - 1]);
      n := 10 * m + DigitOf(c);
      assert n / 10 == m && n % 10 == DigitOf(c);
      assert d == d[..|d| - 1] + [c];
    }
  }

  /** The valid texts of a number are the decimal numbers, with or without a minus sign. */
  lemma IntIff(t: string)
    ensures IsInt(t) <==> exists n: nat :: t == Decimal(n) || t == "-" + Decimal(n)
  {
    if IsInt(t) {
      var d := if t[0] == '-' then t[1..] else t;
      var n := PlainDecimal(d);
      assert t[0] == '-' ==> t == "-" + d;
    }
    forall n: nat | t == Decimal(n) || t == "-" + Decimal(n) ensures IsInt(t) {
      DecimalPlain(n);
      assert ("-" + Decimal(n))[1..] == Decimal(n);
    }
  }

  /** Those of a hexadecimal number have digits of either case, with or without a prefix. */
  lemma HexIff(t: string)
    ensures IsHex(t) <==>
              exists p: string, d: string :: t == p + d && p in {"", "0x", "0X"} && d != "" && forall c :: c in d ==> c in "0123456789abcdefABCDEF"
  {
    if IsHex(t) {
      var p := if HasHexPrefix(t) then t[..2] else "";
      assert HasHexPrefix(t) ==> t[..2] == [t[0], t[1]];
      assert t == p + t[|p|..] && p in {"", "0x", "0X"};
      forall c | c in t[|p|..] ensures c in "0123456789abcdefABCDEF" {
        HexLetter(c);
      }
    }
    forall p: string, d: string | t == p + d && p in {"", "0x", "0X"} && d != "" && forall c :: c in d ==> c in "0123456789abcdefABCDEF"
      ensures IsHex(t)
    {
      HexDigits(p, d);
    }
  }

  lemma HexLetter(c: char)
    ensures IsHexDigit(c) <==> c in "0123456789abcdefABCDEF"
  {
    var h := "0123456789abcdefABCDEF";
    if IsDigit(c) {
      assert h[c as int - '0' as int] == c;
    } else if 'a' <= c <= 'f' {
      assert h[10 + (c as int - 'a' as int)] == c;
    } else if 'A' <= c <= 'F' {
      assert h[16 + (c as int - 'A' as int)] == c;
    }
  }

  lemma HexDigits(p: string, d: string)
    requires p in {"", "0x", "0X"} && d != "" && forall c :: c in d ==> c in "0123456789abcdefABCDEF"
    ensures IsHex(p + d)
  {
    forall i | 0 <= i < |d| ensures IsHexDigit(d[i]) {
      assert d[i] in d;
      HexLetter(d[i]);
    }
    if p == "" {
      assert p + d == d;
      assert !HasHexPrefix(d) by {
        if |d| >= 2 {
          assert IsHexDigit(d[1]);
        }
      }
    } else {
      assert (p + d)[2..] == d;
    }
  }

  /** A value is recognised by its letter, small or capital, whatever follows. */
  lemma LetterRead(x: Tri, rest: string)
    ensures TriOf(Letter(x) + rest) == Some(x)
    ensures TriOf((if x == YES then "Y" else if x == MOD then "M" else "N") + rest) == Some(x)
    ensures forall t :: TriOf(t) == Some(x) ==> t != "" && t[0] in Letter(x) + if x == YES then "Y" else if x == MOD then "M" else "N"
  {
  }
}
