/** The detailed-state register ("State8") as a value: a hex-digit string,
    160 characters by default, with two fields at fixed offsets.
      - temperature: `int(2t)` in hex at 52-53, `int(2(t + 16))` in hex at
        0-1, and a `'2'` at 6;
      - fan direction: the decimal value at 96-97, and `0xC1 + f` in hex at 0-1.
    The functions here are the specification of the `State8` classes. */
module Register {
  import opened Json
  import opened Wrappers
  import opened Numerals

  /** The default register: 160 `'0'` characters. */
  function Zeros(): (r: string)
    ensures |r| == 160 && forall k :: 0 <= k < |r| ==> r[k] == '0'
  {
    seq(160, _ => '0')
  }

  /** Python slicing `s[i:j]`, clipped to the string. */
  function Slice(s: string, i: nat, j: nat): (r: string)
    requires i <= j
    ensures j <= |s| ==> r == s[i..j]
  {
    var hi := if j <= |s| then j else |s|;
    var lo := if i <= hi then i else hi;
    s[lo..hi]
  }

  /** The temperature getter: the two characters at 52 and 53 read in base 16,
      halved. */
  function DecodeTemperature(s: string): (r: Result<real>)
    ensures |s| < 54 <==> r == Err(IndexError)
    ensures |s| >= 54 && r.Err? ==> r.error == ValueError(JStr([s[52], s[53]]))
  {
    if |s| < 54 then Err(IndexError)
    else
      match ParseInt([s[52], s[53]], 16)
      case Ok(n) => Ok(n as real / 2.0)
      case Err(e) => Err(e)
  }

  /** The register after the temperature setter wrote `t`. */
  function WithTemperature(s: string, t: real): (r: string)
    requires |s| >= 54
    ensures |r| == |s| && r[6] == '2'
  {
    var h := HexBody(Trunc(t * 2.0));
    var h2 := HexBody(Trunc((t + 16.0) * 2.0));
    s[52 := h[0]][53 := h[1]][6 := '2'][0 := h2[0]][1 := h2[1]]
  }

  /** The fan-direction getter: the slice `[96:98]` read in base 10. */
  function DecodeFanDirection(s: string): (r: Result<int>)
    ensures r.Err? ==> r.error == ValueError(JStr(Slice(s, 96, 98)))
    ensures |s| <= 96 ==> r == Err(ValueError(JStr("")))
  {
    ParseInt(Slice(s, 96, 98), 10)
  }

  /** The register after the fan-direction setter wrote `f`. */
  function WithFanDirection(s: string, f: int): (r: string)
    requires |s| >= 98
    ensures |r| == |s|
  {
    var h := Format02x(0xC1 + f);
    var d := Format02d(f);
    s[0 := h[0]][1 := h[1]][96 := d[0]][97 := d[1]]
  }

  /** The default register is 160 zeros and decodes to temperature 0 and fan direction 0. */
  lemma DefaultRegister()
    ensures |Zeros()| == 160 && forall k :: 0 <= k < 160 ==> Zeros()[k] == '0'
    ensures DecodeTemperature(Zeros()) == Ok(0.0)
    ensures DecodeFanDirection(Zeros()) == Ok(0)
  {
    ParsePair('0', '0', 16);
    ParsePair('0', '0', 10);
    assert Slice(Zeros(), 96, 98) == ['0', '0'];
  }

  /** Setting the temperature keeps the length and changes only positions 0, 1, 6, 52 and 53. */
  lemma TemperatureFrame(s: string, t: real)
    requires |s| >= 54
    ensures |WithTemperature(s, t)| == |s|
    ensures forall k :: 0 <= k < |s| && k !in {0, 1, 6, 52, 53} ==> WithTemperature(s, t)[k] == s[k]
  {
  }

  /** For `0 <= int(2t) <= 255` positions 52-53 hold `int(2t)` as two lower-case
      hex digits ... */
  lemma TemperatureDigits(s: string, t: real)
    requires |s| >= 54
    requires 0 <= Trunc(t * 2.0) <= 255
    ensures var n := Trunc(t * 2.0);
      WithTemperature(s, t)[52] == HexChar(n / 16) && WithTemperature(s, t)[53] == HexChar(n % 16)
  {
    HexPair(Trunc(t * 2.0));
  }

  /** ... and the getter reads back `int(2t) / 2`. */
  lemma TemperatureRoundTrip(s: string, t: real)
    requires |s| >= 54
    requires 0 <= Trunc(t * 2.0) <= 255
    ensures DecodeTemperature(WithTemperature(s, t)) == Ok(Trunc(t * 2.0) as real / 2.0)
  {
    var n := Trunc(t * 2.0);
    var w := WithTemperature(s, t);
    TemperatureDigits(s, t);
    assert DigitValue(w[52]) == n / 16 && DigitValue(w[53]) == n % 16;
    DecodeHexDigits(w);
  }

  /** The getter on two hexadecimal digits at 52-53. */
  lemma DecodeHexDigits(w: string)
    requires |w| >= 54 && DigitValue(w[52]) < 16 && DigitValue(w[53]) < 16
    ensures DecodeTemperature(w) == Ok((DigitValue(w[52]) * 16 + DigitValue(w[53])) as real / 2.0)
  {
    ParsePair(w[52], w[53], 16);
  }

  /** Half-degree temperatures between 0 and 127.5 survive the round trip exactly. */
  lemma HalfDegreesRoundTrip(s: string, k: nat)
    requires |s| >= 54 && k <= 255
    ensures DecodeTemperature(WithTemperature(s, k as real / 2.0)) == Ok(k as real / 2.0)
  {
    var t := k as real / 2.0;
    assert t * 2.0 == k as real;
    assert Trunc(t * 2.0) == k;
    TemperatureRoundTrip(s, t);
  }

  /** Other non-negative temperatures are truncated down to a half degree. */
  lemma TemperatureTruncates(s: string, t: real)
    requires |s| >= 54 && 0.0 <= t < 128.0
    ensures DecodeTemperature(WithTemperature(s, t)).Ok?
    ensures var d := DecodeTemperature(WithTemperature(s, t)).value;
      d <= t < d + 0.5
  {
    var n := Trunc(t * 2.0);
    assert n == (t * 2.0).Floor;
    TemperatureRoundTrip(s, t);
  }

  /** The setter puts `'2'` at position 6 and `int(2(t + 16))` in hex at 0-1;
      of a three-digit value only the first two digits are written. For a
      non-negative `t` that value is `int(2t) + 32`. */
  lemma TemperatureHeader(s: string, t: real)
    requires |s| >= 54
    ensures WithTemperature(s, t)[6] == '2'
    ensures var m := Trunc((t + 16.0) * 2.0);
      && (0.0 <= t ==> m == Trunc(t * 2.0) + 32)
      && (0 <= m < 256 ==>
            WithTemperature(s, t)[0] == HexChar(m / 16) && WithTemperature(s, t)[1] == HexChar(m % 16))
      && (256 <= m < 4096 ==>
            WithTemperature(s, t)[0] == HexChar(m / 256) && WithTemperature(s, t)[1] == HexChar(m / 16 % 16))
  {
    var m := Trunc((t + 16.0) * 2.0);
    if 0.0 <= t {
      assert (t + 16.0) * 2.0 == t * 2.0 + 32.0;
    }
    if 0 <= m < 256 { HexPair(m); }
    if 256 <= m < 4096 { HexTriple(m); }
  }

  /** Setting the fan direction keeps the length and changes only positions 0, 1, 96 and 97. */
  lemma FanDirectionFrame(s: string, f: int)
    requires |s| >= 98
    ensures |WithFanDirection(s, f)| == |s|
    ensures forall k :: 0 <= k < |s| && k !in {0, 1, 96, 97} ==> WithFanDirection(s, f)[k] == s[k]
  {
  }

  /** For `0 <= f <= 99` positions 96-97 hold `f` as two decimal digits ... */
  lemma FanDirectionDigits(s: string, f: int)
    requires |s| >= 98 && 0 <= f <= 99
    ensures WithFanDirection(s, f)[96] == DecChar(f / 10)
    ensures WithFanDirection(s, f)[97] == DecChar(f % 10)
  {
    DecimalPair(f);
  }

  /** ... and the getter reads back `f`. */
  lemma {:induction false} FanDirectionRoundTrip(s: string, f: int)
    requires |s| >= 98 && 0 <= f <= 99
    ensures DecodeFanDirection(WithFanDirection(s, f)) == Ok(f)
  {
    var w := WithFanDirection(s, f);
    FanDirectionDigits(s, f);
    assert DigitValue(w[96]) == f / 10 && DigitValue(w[97]) == f % 10;
    DecodeDecimalDigits(w);
  }

  /** The getter on two decimal digits at 96-97. */
  lemma DecodeDecimalDigits(w: string)
    requires |w| >= 98 && DigitValue(w[96]) < 10 && DigitValue(w[97]) < 10
    ensures DecodeFanDirection(w) == Ok(DigitValue(w[96]) * 10 + DigitValue(w[97]))
  {
    assert Slice(w, 96, 98) == [w[96], w[97]];
    ParsePair(w[96], w[97], 10);
  }

  /** The setter writes `0xC1 + f` in hex at 0-1: exactly two digits for
      `f <= 62`, the first two of three digits beyond that. */
  lemma FanDirectionHeader(s: string, f: int)
    requires |s| >= 98 && 0 <= f <= 99
    ensures var n := 0xC1 + f;
      && (f <= 62 ==>
            |Format02x(n)| == 2 &&
            WithFanDirection(s, f)[0] == HexChar(n / 16) && WithFanDirection(s, f)[1] == HexChar(n % 16))
      && (63 <= f ==>
            |Format02x(n)| == 3 &&
            WithFanDirection(s, f)[0] == HexChar(n / 256) && WithFanDirection(s, f)[1] == HexChar(n / 16 % 16))
  {
    var n := 0xC1 + f;
    if f <= 62 { HexPair(n); } else { HexTriple(n); }
  }

  /** The two setters overlap only at positions 0-1: setting the fan direction
      leaves the decoded temperature as it was ... */
  lemma FanKeepsTemperature(s: string, f: int)
    requires |s| >= 98
    ensures DecodeTemperature(WithFanDirection(s, f)) == DecodeTemperature(s)
  {
    var v := WithFanDirection(s, f);
    FanDirectionFrame(s, f);
    assert [v[52], v[53]] == [s[52], s[53]];
  }

  /** ... and setting the temperature leaves the decoded fan direction as it was. */
  lemma TemperatureKeepsFanDirection(s: string, t: real)
    requires |s| >= 54
    ensures DecodeFanDirection(WithTemperature(s, t)) == DecodeFanDirection(s)
  {
    var w := WithTemperature(s, t);
    assert |w| == |s|;
    assert Slice(w, 96, 98) == Slice(s, 96, 98);
  }

  /** What the temperature setter writes depends on `t` alone. */
  lemma TemperatureWrites(s: string, t: real)
    requires |s| >= 54
    ensures var h := HexBody(Trunc(t * 2.0)); var h2 := HexBody(Trunc((t + 16.0) * 2.0));
      && WithTemperature(s, t)[52] == h[0] && WithTemperature(s, t)[53] == h[1]
      && WithTemperature(s, t)[6] == '2'
      && WithTemperature(s, t)[0] == h2[0] && WithTemperature(s, t)[1] == h2[1]
  {
  }

  /** What the fan-direction setter writes depends on `f` alone. */
  lemma FanDirectionWrites(s: string, f: int)
    requires |s| >= 98
    ensures var h := Format02x(0xC1 + f); var d := Format02d(f);
      && WithFanDirection(s, f)[0] == h[0] && WithFanDirection(s, f)[1] == h[1]
      && WithFanDirection(s, f)[96] == d[0] && WithFanDirection(s, f)[97] == d[1]
  {
  }

  /** Positions 0-1 reflect whichever setter ran last; everything else is the
      same whichever order the setters run in. */
  lemma LastSetterOwnsHeader(s: string, t: real, f: int)
    requires |s| >= 98
    ensures WithFanDirection(WithTemperature(s, t), f)[..2] == WithFanDirection(s, f)[..2]
    ensures WithTemperature(WithFanDirection(s, f), t)[..2] == WithTemperature(s, t)[..2]
    ensures WithFanDirection(WithTemperature(s, t), f)[2..] == WithTemperature(WithFanDirection(s, f), t)[2..]
  {
    var w := WithTemperature(s, t);
    var v := WithFanDirection(s, f);
    TemperatureFrame(s, t);
    FanDirectionFrame(s, f);
    var tf := WithFanDirection(w, f);
    var ft := WithTemperature(v, t);
    TemperatureFrame(v, t);
    FanDirectionFrame(w, f);
    TemperatureWrites(s, t);
    TemperatureWrites(v, t);
    FanDirectionWrites(s, f);
    FanDirectionWrites(w, f);
    assert tf[..2] == v[..2];
    assert ft[..2] == w[..2];
    forall k | 2 <= k < |s|
      ensures tf[k] == ft[k]
    {
      if k in {96, 97} {
        assert tf[k] == v[k] && ft[k] == v[k];
      } else if k in {6, 52, 53} {
        assert tf[k] == w[k] && ft[k] == w[k];
      } else {
        assert tf[k] == w[k] == s[k] && ft[k] == v[k] == s[k];
      }
    }
    assert tf[2..] == ft[2..];
  }

  /** Setting 23.5 on the default register: `"2f"` at 52-53, `"4f"` at 0-1 and
      `'2'` at 6. */
  lemma WorkedExample()
    ensures WithTemperature(Zeros(), 23.5)[52..54] == "2f"
    ensures WithTemperature(Zeros(), 23.5)[0..2] == "4f"
    ensures WithTemperature(Zeros(), 23.5)[6] == '2'
  {
    assert Trunc(23.5 * 2.0) == 47;
    assert Trunc((23.5 + 16.0) * 2.0) == 79;
    HexPair(47);
    HexPair(79);
  }
}
