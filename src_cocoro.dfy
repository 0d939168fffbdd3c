/** The older copy of the client's device operations (`src/cocoro.py`): the
    same response processing and the same device construction by type, with
    debug output that this model drops. Its members are proved against the
    same specification functions as the packaged client. */
module SrcCocoro {
  import opened Json
  import opened Wrappers
  import opened Properties
  import opened Devices
  import opened Cocoro

  /** `execute_queued_updates(device)` of the older copy: the same written
      loops, raising on a raw entry with the queue kept. */
  method ExecuteQueuedUpdates(d: Device, response: Record) returns (r: Result<Record>)
    requires d.Valid()
    modifies d
    ensures d.Valid()
    ensures CheckControlList(response).Fail? ==>
              && r == Err(CheckControlList(response).error)
              && d.status == old(d.status)
              && d.propertyUpdates == old(d.propertyUpdates)
    ensures CheckControlList(response).Pass? ==>
              && d.status == ApplyAsWritten(old(d.status), old(d.propertyUpdates)).0
              && (ApplyAsWritten(old(d.status), old(d.propertyUpdates)).1.Some? ==>
                    r == Err(AttributeError) && d.propertyUpdates == old(d.propertyUpdates))
              && (ApplyAsWritten(old(d.status), old(d.propertyUpdates)).1.None? ==>
                    r == Ok(response) && d.propertyUpdates == [])
  {
    var updateMap := d.propertyUpdates;
    var check := CheckControlList(response);
    if check.Fail? {
      return Err(check.error);
    }
    var k := 0;
    while k < |updateMap|
      invariant 0 <= k <= |updateMap|
      invariant d.propertyUpdates == updateMap && d.Valid()
      invariant ApplyAsWritten(old(d.status), updateMap[..k]) == (d.status, None)
    {
      var update := updateMap[k];
      ghost var before := d.status;
      assert updateMap[..k + 1][..k] == updateMap[..k];
      assert update.record["statusCode"] == update.code;
      var i := 0;
      while i < |d.status|
        invariant 0 <= i <= |d.status| == |before|
        invariant d.propertyUpdates == updateMap
        invariant ScanAsWritten(d.status, update, i) == ScanAsWritten(before, update, 0)
      {
        if d.status[i].Raw? {
          FailureSticks(old(d.status), updateMap, k + 1);
          return Err(AttributeError);
        }
        if d.status[i].status.statusCode == update.record["statusCode"] {
          d.status := d.status[i := Raw(update.record)];
        }
        i := i + 1;
      }
      k := k + 1;
    }
    assert updateMap[..k] == updateMap;
    d.propertyUpdates := [];
    r := Ok(response);
  }

  /** `query_devices()` of the older copy, given what it fetched for each box. */
  method QueryDevices(listings: seq<Listing>) returns (r: Result<seq<Device>>)
    ensures r.Ok? <==> forall i :: 0 <= i < |listings| ==> DeviceTypeFromWire(listings[i].deviceType).Ok?
    ensures r.Err? ==>
              exists i :: 0 <= i < |listings| && r.error == ValueError(listings[i].deviceType) &&
                          DeviceTypeFromWire(listings[i].deviceType).Err? &&
                          forall j :: 0 <= j < i ==> DeviceTypeFromWire(listings[j].deviceType).Ok?
    ensures r.Ok? ==> |r.value| == |listings|
    ensures r.Ok? ==> forall i :: 0 <= i < |listings| ==> fresh(r.value[i]) && BuiltFrom(r.value[i], listings[i])
  {
    var devices: seq<Device> := [];
    var i := 0;
    while i < |listings|
      invariant 0 <= i <= |listings| && |devices| == i
      invariant forall j :: 0 <= j < i ==> DeviceTypeFromWire(listings[j].deviceType).Ok?
      invariant forall j :: 0 <= j < i ==> fresh(devices[j]) && BuiltFrom(devices[j], listings[j])
    {
      var box := listings[i];
      var deviceType := DeviceTypeFromWire(box.deviceType);
      if deviceType.Err? {
        return Err(deviceType.error);
      }
      var d := new Device(FamilyFor(deviceType.value), deviceType.value, box.deviceId, box.echonetNode,
                          box.echonetObject, box.properties, box.status);
      devices := devices + [d];
      i := i + 1;
    }
    r := Ok(devices);
  }
}
