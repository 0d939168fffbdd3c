/** The air purifier: update wrappers with their fixed lists of accepted
    values, and getters of single and integer statuses. */
module Purifier {
  import opened Json
  import opened Wrappers
  import opened Properties
  import opened Devices

  /** The purifier's status codes and single values. Their definitions are
      not part of this model; every contract here holds whatever strings they
      are. `members` is the set of all single values. */
  datatype PurifierCodes = PurifierCodes(
    power: string, operationMode: string, airVolume: string,
    humidity: string, pm25: string, filterLife: string,
    powerOn: string, powerOff: string,
    operationAuto: string, operationManual: string, operationPollen: string, operationQuiet: string,
    airVolumeAuto: string, airVolumeQuiet: string, airVolumeLow: string, airVolumeMedium: string,
    airVolumeHigh: string, airVolumeTurbo: string,
    members: set<string>)

  /** The operation modes `queue_operation_mode_update` accepts. */
  function OperationModes(c: PurifierCodes): (r: seq<string>)
    ensures |r| == 4
  {
    [c.operationAuto, c.operationManual, c.operationPollen, c.operationQuiet]
  }

  /** The air volumes `queue_air_volume_update` accepts. */
  function AirVolumes(c: PurifierCodes): (r: seq<string>)
    ensures |r| == 6
  {
    [c.airVolumeAuto, c.airVolumeQuiet, c.airVolumeLow, c.airVolumeMedium, c.airVolumeHigh, c.airVolumeTurbo]
  }

  /** `queue_power_on()` */
  method QueuePowerOn(d: Device, c: PurifierCodes) returns (r: Outcome)
    requires d.Valid()
    modifies d
    ensures d.Valid()
    ensures r == Validate(d.properties, SingleUpdate(c.power, c.powerOn))
    ensures d.status == old(d.status)
    ensures d.propertyUpdates ==
            if r.Pass? then Put(old(d.propertyUpdates), JStr(c.power), SingleUpdate(c.power, c.powerOn))
            else old(d.propertyUpdates)
  {
    r := d.QueuePropertyStatusUpdate(SingleUpdate(c.power, c.powerOn));
  }

  /** `queue_power_off()` */
  method QueuePowerOff(d: Device, c: PurifierCodes) returns (r: Outcome)
    requires d.Valid()
    modifies d
    ensures d.Valid()
    ensures r == Validate(d.properties, SingleUpdate(c.power, c.powerOff))
    ensures d.status == old(d.status)
    ensures d.propertyUpdates ==
            if r.Pass? then Put(old(d.propertyUpdates), JStr(c.power), SingleUpdate(c.power, c.powerOff))
            else old(d.propertyUpdates)
  {
    r := d.QueuePropertyStatusUpdate(SingleUpdate(c.power, c.powerOff));
  }

  /** `queue_operation_mode_update(mode)`: only the four listed modes are queued. */
  method QueueOperationModeUpdate(d: Device, c: PurifierCodes, mode: string) returns (r: Outcome)
    requires d.Valid()
    modifies d
    ensures d.Valid()
    ensures d.status == old(d.status)
    ensures mode !in OperationModes(c) ==>
              r == Fail(InvalidChoice("operation mode", JStr(mode))) && d.propertyUpdates == old(d.propertyUpdates)
    ensures mode in OperationModes(c) ==>
              && r == Validate(d.properties, SingleUpdate(c.operationMode, mode))
              && d.propertyUpdates ==
                 if r.Pass? then Put(old(d.propertyUpdates), JStr(c.operationMode), SingleUpdate(c.operationMode, mode))
                 else old(d.propertyUpdates)
  {
    if mode !in OperationModes(c) {
      return Fail(InvalidChoice("operation mode", JStr(mode)));
    }
    r := d.QueuePropertyStatusUpdate(SingleUpdate(c.operationMode, mode));
  }

  /** `queue_air_volume_update(volume)`: only the six listed volumes are queued. */
  method QueueAirVolumeUpdate(d: Device, c: PurifierCodes, volume: string) returns (r: Outcome)
    requires d.Valid()
    modifies d
    ensures d.Valid()
    ensures d.status == old(d.status)
    ensures volume !in AirVolumes(c) ==>
              r == Fail(InvalidChoice("air volume", JStr(volume))) && d.propertyUpdates == old(d.propertyUpdates)
    ensures volume in AirVolumes(c) ==>
              && r == Validate(d.properties, SingleUpdate(c.airVolume, volume))
              && d.propertyUpdates ==
                 if r.Pass? then Put(old(d.propertyUpdates), JStr(c.airVolume), SingleUpdate(c.airVolume, volume))
                 else old(d.propertyUpdates)
  {
    if volume !in AirVolumes(c) {
      return Fail(InvalidChoice("air volume", JStr(volume)));
    }
    r := d.QueuePropertyStatusUpdate(SingleUpdate(c.airVolume, volume));
  }

  /** `get_power_status()` */
  function PowerStatus(st: seq<StatusEntry>, c: PurifierCodes): (r: Result<string>)
    ensures r.Ok? ==> r.value in c.members && HoldsSingle(st, c.power, r.value)
    ensures forall v :: HoldsSingle(st, c.power, v) && v in c.members ==> r == Ok(v)
  {
    SingleCode(st, c.power, c.members)
  }

  /** `get_operation_mode()` */
  function OperationMode(st: seq<StatusEntry>, c: PurifierCodes): (r: Result<string>)
    ensures r.Ok? ==> r.value in c.members && HoldsSingle(st, c.operationMode, r.value)
    ensures forall v :: HoldsSingle(st, c.operationMode, v) && v in c.members ==> r == Ok(v)
  {
    SingleCode(st, c.operationMode, c.members)
  }

  /** `get_air_volume()` */
  function AirVolume(st: seq<StatusEntry>, c: PurifierCodes): (r: Result<string>)
    ensures r.Ok? ==> r.value in c.members && HoldsSingle(st, c.airVolume, r.value)
    ensures forall v :: HoldsSingle(st, c.airVolume, v) && v in c.members ==> r == Ok(v)
  {
    SingleCode(st, c.airVolume, c.members)
  }

  /** `get_humidity()` */
  function Humidity(st: seq<StatusEntry>, c: PurifierCodes): (r: Result<int>)
    ensures forall x :: HoldsRange(st, c.humidity, x) ==> r == Numerals.PyInt(x)
    ensures r.Ok? ==> exists x :: HoldsRange(st, c.humidity, x) && r == Numerals.PyInt(x)
  {
    RangeInt(st, c.humidity)
  }

  /** `get_pm25()` */
  function Pm25(st: seq<StatusEntry>, c: PurifierCodes): (r: Result<int>)
    ensures forall x :: HoldsRange(st, c.pm25, x) ==> r == Numerals.PyInt(x)
    ensures r.Ok? ==> exists x :: HoldsRange(st, c.pm25, x) && r == Numerals.PyInt(x)
  {
    RangeInt(st, c.pm25)
  }

  /** `get_filter_life()` */
  function FilterLife(st: seq<StatusEntry>, c: PurifierCodes): (r: Result<int>)
    ensures forall x :: HoldsRange(st, c.filterLife, x) ==> r == Numerals.PyInt(x)
    ensures r.Ok? ==> exists x :: HoldsRange(st, c.filterLife, x) && r == Numerals.PyInt(x)
  {
    RangeInt(st, c.filterLife)
  }
}
