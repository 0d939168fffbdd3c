/** `State8` of the older snapshot under `src/`: the same register, with the
    temperature field only. Its getter and setter are specified by the same
    functions as the packaged class, so the two agree position for position. */
module SrcState {
  import opened Json
  import opened Wrappers
  import opened Numerals
  import opened Register

  class State8 {
    var state: string

    /** `State8()`: the default register. */
    constructor Default()
      ensures state == Zeros()
    {
      state := Zeros();
    }

    /** `State8(state)`. */
    constructor (state: string)
      ensures this.state == state
    {
      this.state := state;
    }

    /** The `temperature` getter. */
    function Temperature(): (r: Result<real>)
      reads this
      ensures |state| < 54 ==> r == Err(IndexError)
      ensures |state| >= 54 ==> r.Ok? || r == Err(ValueError(JStr([state[52], state[53]])))
    {
      DecodeTemperature(state)
    }

    /** The `temperature` setter. */
    method SetTemperature(t: real) returns (r: Outcome)
      modifies this
      ensures r == if |old(state)| < 54 then Fail(IndexError) else Pass
      ensures state == if r.Pass? then WithTemperature(old(state), t) else old(state)
    {
      if |state| < 54 {
        return Fail(IndexError);
      }
      var s := state;
      var hexTemp := HexBody(Trunc(t * 2.0));
      s := s[52 := hexTemp[0]];
      s := s[53 := hexTemp[1]];
      s := s[6 := '2'];
      var hexTemp2 := HexBody(Trunc((t + 16.0) * 2.0));
      s := s[0 := hexTemp2[0]];
      s := s[1 := hexTemp2[1]];
      state := s;
      r := Pass;
    }
  }
}
