/** The air conditioner: update wrappers that check their value against a
    fixed list before queueing, and getters that decode its statuses. */
module Aircon {
  import opened Json
  import opened Wrappers
  import opened Properties
  import opened Register
  import opened State
  import opened Devices

  /** The air conditioner's status codes and single values. Their definitions
      are not part of this model; every contract here holds whatever strings
      they are. `members` is the set of all single values, the members of the
      `ValueSingle` enumeration. */
  datatype AirconCodes = AirconCodes(
    stateDetail: string, roomTemperature: string, windspeed: string, power: string, operationMode: string,
    powerOn: string, powerOff: string,
    operationOther: string, operationAuto: string, operationCool: string, operationHeat: string,
    operationDehumidify: string, operationVentilation: string,
    windspeedLevel1: string, windspeedLevel2: string, windspeedLevel3: string, windspeedLevel4: string,
    windspeedLevel5: string, windspeedLevel6: string, windspeedLevel7: string, windspeedLevel8: string,
    windspeedAuto: string,
    members: set<string>)

  /** The operation modes `queue_operation_mode_update` accepts. */
  function OperationModes(c: AirconCodes): (r: seq<string>)
    ensures |r| == 6
  {
    [c.operationOther, c.operationAuto, c.operationCool, c.operationHeat, c.operationDehumidify,
     c.operationVentilation]
  }

  /** The windspeeds `queue_windspeed_update` accepts. */
  function Windspeeds(c: AirconCodes): (r: seq<string>)
    ensures |r| == 9
  {
    [c.windspeedLevel1, c.windspeedLevel2, c.windspeedLevel3, c.windspeedLevel4, c.windspeedLevel5,
     c.windspeedLevel6, c.windspeedLevel7, c.windspeedLevel8, c.windspeedAuto]
  }

  /** The record `queue_temperature_update(t)` queues: a binary status under
      the state-detail code whose `code` is the zero register with `t` set. */
  function TemperatureUpdate(c: AirconCodes, t: real): (u: Record)
    ensures u.Keys == {"statusCode", "valueType", "valueBinary"}
    ensures u["statusCode"] == JStr(c.stateDetail) && u["valueType"] == JStr(Binary.Wire())
    ensures u["valueBinary"].JObj? && u["valueBinary"].fields.Keys == {"code"}
    ensures var reg := u["valueBinary"].fields["code"];
      && reg.JStr? && |reg.s| == 160
      && (0 <= Numerals.Trunc(t * 2.0) <= 255 ==> DecodeTemperature(reg.s) == Ok(Numerals.Trunc(t * 2.0) as real / 2.0))
  {
    var reg := WithTemperature(Zeros(), t);
    if 0 <= Numerals.Trunc(t * 2.0) <= 255 then
      TemperatureRoundTrip(Zeros(), t);
      BinaryUpdate(c.stateDetail, reg)
    else BinaryUpdate(c.stateDetail, reg)
  }

  /** `queue_temperature_update(t)` */
  method QueueTemperatureUpdate(d: Device, c: AirconCodes, t: real) returns (r: Outcome)
    requires d.Valid()
    modifies d
    ensures d.Valid()
    ensures r == Validate(d.properties, TemperatureUpdate(c, t))
    ensures d.status == old(d.status)
    ensures d.propertyUpdates ==
            if r.Pass? then Put(old(d.propertyUpdates), JStr(c.stateDetail), TemperatureUpdate(c, t))
            else old(d.propertyUpdates)
  {
    var s8 := new State8.Default();
    var ok := s8.SetTemperature(t);
    r := d.QueuePropertyStatusUpdate(BinaryUpdate(c.stateDetail, s8.state));
  }

  /** `queue_power_on()` */
  method QueuePowerOn(d: Device, c: AirconCodes) returns (r: Outcome)
    requires d.Valid()
    modifies d
    ensures d.Valid()
    ensures r == Validate(d.properties, SingleUpdate(c.power, c.powerOn))
    ensures d.status == old(d.status)
    ensures d.propertyUpdates ==
            if r.Pass? then Put(old(d.propertyUpdates), JStr(c.power), SingleUpdate(c.power, c.powerOn))
            else old(d.propertyUpdates)
  {
    r := d.QueuePropertyStatusUpdate(SingleUpdate(c.power, c.powerOn));
  }

  /** `queue_power_off()` */
  method QueuePowerOff(d: Device, c: AirconCodes) returns (r: Outcome)
    requires d.Valid()
    modifies d
    ensures d.Valid()
    ensures r == Validate(d.properties, SingleUpdate(c.power, c.powerOff))
    ensures d.status == old(d.status)
    ensures d.propertyUpdates ==
            if r.Pass? then Put(old(d.propertyUpdates), JStr(c.power), SingleUpdate(c.power, c.powerOff))
            else old(d.propertyUpdates)
  {
    r := d.QueuePropertyStatusUpdate(SingleUpdate(c.power, c.powerOff));
  }

  /** `queue_operation_mode_update(mode)`: a mode outside the six listed ones
      is refused before anything is queued. */
  method QueueOperationModeUpdate(d: Device, c: AirconCodes, mode: string) returns (r: Outcome)
    requires d.Valid()
    modifies d
    ensures d.Valid()
    ensures d.status == old(d.status)
    ensures mode !in OperationModes(c) ==>
              r == Fail(InvalidChoice("operation mode", JStr(mode))) && d.propertyUpdates == old(d.propertyUpdates)
    ensures mode in OperationModes(c) ==>
              && r == Validate(d.properties, SingleUpdate(c.operationMode, mode))
              && d.propertyUpdates ==
                 if r.Pass? then Put(old(d.propertyUpdates), JStr(c.operationMode), SingleUpdate(c.operationMode, mode))
                 else old(d.propertyUpdates)
  {
    if mode !in OperationModes(c) {
      return Fail(InvalidChoice("operation mode", JStr(mode)));
    }
    r := d.QueuePropertyStatusUpdate(SingleUpdate(c.operationMode, mode));
  }

  /** `queue_windspeed_update(mode)`: a windspeed outside the nine listed ones
      is refused before anything is queued. */
  method QueueWindspeedUpdate(d: Device, c: AirconCodes, mode: string) returns (r: Outcome)
    requires d.Valid()
    modifies d
    ensures d.Valid()
    ensures d.status == old(d.status)
    ensures mode !in Windspeeds(c) ==>
              r == Fail(InvalidChoice("windspeed mode", JStr(mode))) && d.propertyUpdates == old(d.propertyUpdates)
    ensures mode in Windspeeds(c) ==>
              && r == Validate(d.properties, SingleUpdate(c.windspeed, mode))
              && d.propertyUpdates ==
                 if r.Pass? then Put(old(d.propertyUpdates), JStr(c.windspeed), SingleUpdate(c.windspeed, mode))
                 else old(d.propertyUpdates)
  {
    if mode !in Windspeeds(c) {
      return Fail(InvalidChoice("windspeed mode", JStr(mode)));
    }
    r := d.QueuePropertyStatusUpdate(SingleUpdate(c.windspeed, mode));
  }

  /** `get_state8()`: the register held in the `code` of the state-detail
      status, which must be a binary status. */
  function State8Register(st: seq<StatusEntry>, c: AirconCodes): (r: Result<string>)
    ensures r.Ok? ==> HoldsBinary(st, c.stateDetail, JStr(r.value))
    ensures forall x :: HoldsBinary(st, c.stateDetail, x) ==> r == (if x.JStr? then Ok(x.s) else Err(TypeError))
  {
    match GetPropertyStatus(st, JStr(c.stateDetail))
    case Some(Parsed(BinaryPropertyStatus(_, payload))) =>
      var v :- Subscript(payload, "code");
      if v.JStr? then Ok(v.s) else Err(TypeError)
    case _ => Err(AssertionError)
  }

  /** `get_temperature()` */
  function Temperature(st: seq<StatusEntry>, c: AirconCodes): (r: Result<real>)
    ensures forall reg :: HoldsBinary(st, c.stateDetail, JStr(reg)) ==> r == DecodeTemperature(reg)
    ensures r.Ok? ==> exists reg :: HoldsBinary(st, c.stateDetail, JStr(reg)) && r == DecodeTemperature(reg)
  {
    var register :- State8Register(st, c);
    DecodeTemperature(register)
  }

  /** `get_room_temperature()` */
  function RoomTemperature(st: seq<StatusEntry>, c: AirconCodes): (r: Result<int>)
    ensures forall x :: HoldsRange(st, c.roomTemperature, x) ==> r == Numerals.PyInt(x)
    ensures r.Ok? ==> exists x :: HoldsRange(st, c.roomTemperature, x) && r == Numerals.PyInt(x)
  {
    RangeInt(st, c.roomTemperature)
  }

  /** `get_windspeed()` */
  function Windspeed(st: seq<StatusEntry>, c: AirconCodes): (r: Result<string>)
    ensures r.Ok? ==> r.value in c.members && HoldsSingle(st, c.windspeed, r.value)
    ensures forall v :: HoldsSingle(st, c.windspeed, v) && v in c.members ==> r == Ok(v)
  {
    SingleCode(st, c.windspeed, c.members)
  }

  /** The temperature is the `State8` temperature of the register in the
      first state-detail status; a missing or non-binary status fails the
      getter's assertion. */
  lemma TemperatureDecodesState8(st: seq<StatusEntry>, c: AirconCodes)
    ensures (GetPropertyStatus(st, JStr(c.stateDetail)).None? ||
             !GetPropertyStatus(st, JStr(c.stateDetail)).value.Parsed? ||
             !GetPropertyStatus(st, JStr(c.stateDetail)).value.status.BinaryPropertyStatus?) ==>
            Temperature(st, c) == Err(AssertionError)
    ensures State8Register(st, c).Ok? ==>
              && Temperature(st, c) == DecodeTemperature(State8Register(st, c).value)
              && GetPropertyStatus(st, JStr(c.stateDetail)).Some?
              && Subscript(GetPropertyStatus(st, JStr(c.stateDetail)).value.status.Payload(), "code") ==
                 Ok(JStr(State8Register(st, c).value))
  {
  }

  /** The room temperature is `int()` of the `code` of the first room-temperature
      status, which must be a range status. */
  lemma RoomTemperatureParsesCode(st: seq<StatusEntry>, c: AirconCodes, n: nat)
    requires GetPropertyStatus(st, JStr(c.roomTemperature)).Some?
    requires GetPropertyStatus(st, JStr(c.roomTemperature)).value.Parsed?
    requires GetPropertyStatus(st, JStr(c.roomTemperature)).value.status.RangePropertyStatus?
    requires Subscript(GetPropertyStatus(st, JStr(c.roomTemperature)).value.status.valueRange, "code") ==
             Ok(JStr(NatToString(n)))
    ensures RoomTemperature(st, c) == Ok(n)
  {
    Numerals.DecimalRoundTrip(n);
  }
}
