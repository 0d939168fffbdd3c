/** The Python integer conversions the register codec and the family getters
    use: `hex(n)`, the `02x` and `02d` format specs, `str.zfill(2)`, `int(x)`
    truncation of a number, and `int(s, base)` parsing of a string. */
module Numerals {
  import opened Json
  import opened Wrappers

  /** Lower-case hexadecimal digit, as `hex()` and `02x` print it. */
  function HexChar(d: nat): (c: char)
    requires d < 16
    ensures DigitValue(c) == d
  {
    if d < 10 then ('0' as int + d) as char else ('a' as int + d - 10) as char
  }

  /** Decimal digit. */
  function DecChar(d: nat): (c: char)
    requires d < 10
    ensures DigitValue(c) == d
  {
    ('0' as int + d) as char
  }

  /** Lower-case hexadecimal digits of `n`, most significant first (`hex(n)[2:]` for `n >= 0`). */
  function LowerHex(n: nat): (r: string)
    ensures |r| >= 1
    ensures forall k :: 0 <= k < |r| ==> DigitValue(r[k]) < 16
    decreases n
  {
    if n < 16 then [HexChar(n)] else LowerHex(n / 16) + [HexChar(n % 16)]
  }

  /** `str.zfill(2)` of an unsigned digit string. */
  function ZFill2(s: string): (r: string)
    ensures |r| == if |s| < 2 then 2 else |s|
    ensures |s| >= 2 ==> r == s
  {
    if |s| < 2 then seq(2 - |s|, _ => '0') + s else s
  }

  /** `hex(n)[2:].zfill(2)`: for a negative `n`, `hex` yields `-0x...`, so the
      slice keeps the `x` and the digits of `-n`. */
  function HexBody(n: int): (r: string)
    ensures |r| >= 2
    ensures n < 0 ==> r[0] == 'x'
  {
    if n >= 0 then ZFill2(LowerHex(n)) else "x" + LowerHex(-n)
  }

  /** `f"{n:02x}"`: a minus sign counts towards the width. */
  function Format02x(n: int): (r: string)
    ensures |r| >= 2
    ensures n < 0 ==> r[0] == '-'
  {
    if n >= 0 then HexBody(n) else "-" + LowerHex(-n)
  }

  /** `f"{n:02d}"`. */
  function Format02d(n: int): (r: string)
    ensures |r| >= 2
  {
    if n >= 0 then ZFill2(NatToString(n)) else "-" + NatToString(-n)
  }

  /** `int(x)` of a number: truncation toward zero. */
  function Trunc(x: real): (r: int)
    ensures 0.0 <= x ==> r == x.Floor
    ensures x < 0.0 ==> r == -((-x).Floor)
  {
    if x >= 0.0 then x.Floor else -((-x).Floor)
  }

  /** Value of a character as a digit in bases up to 36, or 36 if it is none. */
  function DigitValue(c: char): (v: nat)
    ensures v <= 36
  {
    if '0' <= c <= '9' then c as int - '0' as int
    else if 'a' <= c <= 'z' then c as int - 'a' as int + 10
    else if 'A' <= c <= 'Z' then c as int - 'A' as int + 10
    else 36
  }

  /** The ASCII characters Python's `int()` skips around a literal. */
  predicate IsSpace(c: char)
  {
    (9 <= c as int <= 13) || (28 <= c as int <= 32)
  }

  function StripLeft(s: string): string
  {
    if s != [] && IsSpace(s[0]) then StripLeft(s[1..]) else s
  }

  function StripRight(s: string): string
  {
    if s != [] && IsSpace(s[|s| - 1]) then StripRight(s[..|s| - 1]) else s
  }

  function Strip(s: string): string
  {
    StripRight(StripLeft(s))
  }

  /** Positional value of a digit string, most significant digit first, or
      None if some character is not a digit of the base. */
  function ReadDigits(ds: string, base: nat): Option<nat>
  {
    if ds == [] then Some(0)
    else
      match ReadDigits(ds[..|ds| - 1], base)
      case None => None
      case Some(v) =>
        var d := DigitValue(ds[|ds| - 1]);
        if d < base then Some(v * base + d) else None
  }

  /** The digits that follow an optional `+`/`-` sign and, in base 16, an
      optional `0x`/`0X` prefix. */
  function Unsigned(t: string): string
  {
    if |t| > 0 && (t[0] == '-' || t[0] == '+') then t[1..] else t
  }

  function DigitPart(body: string, base: nat): string
  {
    if base == 16 && |body| >= 2 && body[0] == '0' && (body[1] == 'x' || body[1] == 'X')
    then body[2..] else body
  }

  /** `int(s, base)` for base 10 or 16. */
  function ParseInt(s: string, base: nat): (r: Result<int>)
    requires base == 10 || base == 16
    ensures r.Err? ==> r.error == ValueError(JStr(s))
  {
    var t := Strip(s);
    var ds := DigitPart(Unsigned(t), base);
    if |ds| > 0 && ReadDigits(ds, base).Some? then
      var v: int := ReadDigits(ds, base).value;
      Ok(if |t| > 0 && t[0] == '-' then -v else v)
    else
      Err(ValueError(JStr(s)))
  }

  /** `int(x)` of a JSON value: an integer is itself, a boolean is 0 or 1, a
      string is read in base 10; `None`, lists and dicts are a type error. */
  function PyInt(j: Json): (r: Result<int>)
    ensures j.JInt? ==> r == Ok(j.i)
    ensures j.JBool? ==> r == Ok(if j.b then 1 else 0)
    ensures (j.JNull? || j.JArr? || j.JObj?) ==> r == Err(TypeError)
    ensures j.JStr? && r.Err? ==> r.error == ValueError(j)
  {
    match j
    case JInt(i) => Ok(i)
    case JBool(b) => Ok(if b then 1 else 0)
    case JStr(s) => ParseInt(s, 10)
    case _ => Err(TypeError)
  }

  /** A digit string with no sign, no prefix and no space is read positionally. */
  lemma ParsePlainDigits(ds: string, base: nat)
    requires base == 10 || base == 16
    requires |ds| > 0 && ReadDigits(ds, base).Some?
    requires DigitValue(ds[0]) < base && DigitValue(ds[|ds| - 1]) < base
    requires base == 16 && |ds| >= 2 ==> ds[1] != 'x' && ds[1] != 'X'
    ensures ParseInt(ds, base) == Ok(ReadDigits(ds, base).value)
  {
    assert !IsSpace(ds[0]) && !IsSpace(ds[|ds| - 1]);
    assert StripLeft(ds) == ds;
    assert StripRight(ds) == ds;
    assert ds[0] != '-' && ds[0] != '+';
  }

  /** `int(hex(n)[2:], 16) == n`. */
  lemma {:induction false} LowerHexValue(n: nat)
    ensures ReadDigits(LowerHex(n), 16) == Some(n)
    decreases n
  {
    var r := LowerHex(n);
    if n >= 16 {
      LowerHexValue(n / 16);
      assert r[..|r| - 1] == LowerHex(n / 16);
    } else {
      assert r[..0] == [];
    }
  }

  /** `int(hex(n)[2:], 16) == n`: the hexadecimal text of a natural number
      reads back as it. */
  lemma HexTextRoundTrip(n: nat)
    ensures ParseInt(LowerHex(n), 16) == Ok(n)
  {
    var r := LowerHex(n);
    LowerHexValue(n);
    assert DigitValue('x') == 33 && DigitValue('X') == 33;
    ParsePlainDigits(r, 16);
  }

  /** `int(str(n)) == n`: the digits of a natural number read back as it. */
  lemma {:induction false} DecimalValue(n: nat)
    ensures ReadDigits(NatToString(n), 10) == Some(n)
    decreases n
  {
    var r := NatToString(n);
    if n >= 10 {
      DecimalValue(n / 10);
      assert r[..|r| - 1] == NatToString(n / 10);
      assert DigitValue(r[|r| - 1]) == n % 10;
    } else {
      assert r[..0] == [];
      assert DigitValue(r[0]) == n;
    }
  }

  /** Reading a non-negative integer's decimal text back with `int()` gives it. */
  lemma DecimalRoundTrip(n: nat)
    ensures ParseInt(NatToString(n), 10) == Ok(n)
  {
    var r := NatToString(n);
    DecimalValue(n);
    ParsePlainDigits(r, 10);
  }

  /** A single digit gains one leading zero under `zfill(2)`. */
  lemma ZFillOne(c: char)
    ensures ZFill2([c]) == ['0', c]
  {
    assert seq(1, _ => '0') == ['0'];
  }

  /** Two hexadecimal digits for `n < 256`, as both `hex(n)[2:].zfill(2)`
      and `02x` print them. */
  lemma HexPair(n: nat)
    requires n < 256
    ensures HexBody(n) == [HexChar(n / 16), HexChar(n % 16)]
    ensures Format02x(n) == HexBody(n)
  {
    if n < 16 {
      assert LowerHex(n) == [HexChar(n)];
      ZFillOne(HexChar(n));
      assert HexChar(0) == '0';
    } else {
      assert LowerHex(n / 16) == [HexChar(n / 16)];
    }
  }

  /** `int(x + y, base)` for two digits of the base. */
  lemma ParsePair(x: char, y: char, base: nat)
    requires base == 10 || base == 16
    requires DigitValue(x) < base && DigitValue(y) < base
    ensures ParseInt([x, y], base) == Ok(DigitValue(x) * base + DigitValue(y))
  {
    var r := [x, y];
    assert r[..1] == [x];
    assert [x][..0] == [];
    assert ReadDigits([x], base) == Some(DigitValue(x));
    assert ReadDigits(r, base) == Some(DigitValue(x) * base + DigitValue(y));
    assert y != 'x' && y != 'X' by { assert DigitValue('x') == 33 && DigitValue('X') == 33; }
    ParsePlainDigits(r, base);
  }

  /** Three hexadecimal digits for `256 <= n < 4096`. */
  lemma HexTriple(n: nat)
    requires 256 <= n < 4096
    ensures HexBody(n) == Format02x(n) == [HexChar(n / 256), HexChar(n / 16 % 16), HexChar(n % 16)]
  {
    assert LowerHex(n / 256) == [HexChar(n / 256)];
    assert n / 16 / 16 == n / 256;
    assert LowerHex(n / 16) == [HexChar(n / 256), HexChar(n / 16 % 16)];
  }

  /** `int(f"{n:02d}") == n`: the zero-padded decimal text of a natural
      number reads back as it. */
  lemma Format02dReadsBack(n: nat)
    ensures ParseInt(Format02d(n), 10) == Ok(n)
  {
    if n < 10 {
      DecimalPair(n);
      ParsePair(DecChar(n / 10), DecChar(n % 10), 10);
    } else {
      DecimalRoundTrip(n);
    }
  }

  /** `int(str(i)) == i` for an integer JSON value, sign included. */
  lemma ShowIntRoundTrip(i: int)
    ensures ParseInt(Show(JInt(i)), 10) == Ok(i)
  {
    if i >= 0 {
      DecimalRoundTrip(i);
    } else {
      var ds := NatToString(-i);
      var r := "-" + ds;
      DecimalValue(-i);
      assert !IsSpace(r[0]) && !IsSpace(r[|r| - 1]);
      assert StripLeft(r) == r;
      assert StripRight(r) == r;
      assert Unsigned(r) == ds;
    }
  }

  /** Two decimal digits as `02d` prints an `n < 100`. */
  lemma DecimalPair(n: nat)
    requires n < 100
    ensures Format02d(n) == [DecChar(n / 10), DecChar(n % 10)]
  {
    if n < 10 {
      assert NatToString(n) == [DecChar(n)];
      ZFillOne(DecChar(n));
    } else {
      assert NatToString(n / 10) == [DecChar(n / 10)];
    }
  }
}
