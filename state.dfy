/** `State8` of the packaged client: a register held in a field that the
    setters rebuild character by character. */
module State {
  import opened Json
  import opened Wrappers
  import opened Numerals
  import opened Register

  class State8 {
    var state: string

    /** `State8()`: the default register. */
    constructor Default()
      ensures state == Zeros()
    {
      state := Zeros();
    }

    /** `State8(state)`. */
    constructor (state: string)
      ensures this.state == state
    {
      this.state := state;
    }

    /** The `temperature` getter. */
    function Temperature(): (r: Result<real>)
      reads this
      ensures |state| < 54 ==> r == Err(IndexError)
      ensures |state| >= 54 ==> r.Ok? || r == Err(ValueError(JStr([state[52], state[53]])))
    {
      DecodeTemperature(state)
    }

    /** The `temperature` setter: fails with an index error, leaving the
        register as it was, when it is too short for position 53. */
    method SetTemperature(t: real) returns (r: Outcome)
      modifies this
      ensures r == if |old(state)| < 54 then Fail(IndexError) else Pass
      ensures state == if r.Pass? then WithTemperature(old(state), t) else old(state)
    {
      if |state| < 54 {
        return Fail(IndexError);
      }
      var s := state;
      var hexTemp := HexBody(Trunc(t * 2.0));
      s := s[52 := hexTemp[0]];
      s := s[53 := hexTemp[1]];
      s := s[6 := '2'];
      var hexTemp2 := HexBody(Trunc((t + 16.0) * 2.0));
      s := s[0 := hexTemp2[0]];
      s := s[1 := hexTemp2[1]];
      state := s;
      r := Pass;
    }

    /** The `fan_direction` getter. */
    function FanDirection(): (r: Result<int>)
      reads this
      ensures r.Ok? ==> |state| >= 97
      ensures r.Err? ==> r.error == ValueError(JStr(Slice(state, 96, 98)))
    {
      DecodeFanDirection(state)
    }

    /** The `fan_direction` setter: fails with an index error, leaving the
        register as it was, when it is too short for position 97. */
    method SetFanDirection(f: int) returns (r: Outcome)
      modifies this
      ensures r == if |old(state)| < 98 then Fail(IndexError) else Pass
      ensures state == if r.Pass? then WithFanDirection(old(state), f) else old(state)
    {
      if |state| < 98 {
        return Fail(IndexError);
      }
      var s := state;
      var hexValue := Format02x(0xC1 + f);
      s := s[0 := hexValue[0]];
      s := s[1 := hexValue[1]];
      var decimalValue := Format02d(f);
      s := s[96 := decimalValue[0]];
      s := s[97 := decimalValue[1]];
      state := s;
      r := Pass;
    }
  }
}
