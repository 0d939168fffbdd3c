/** Parsing of the device-property response and of the control responses.
    Records are JSON objects; a record becomes the dataclass of its kind,
    which raises a type error when its keys are not exactly the dataclass's
    fields. */
module ResponseTypes {
  import opened Json
  import opened Wrappers
  import opened Properties

  /** The payload keys removed from every record before the kind's own one is put back. */
  const ValueKeys: set<string> := {"valueSingle", "valueBinary", "valueRange"}
  /** The fields of the `Property` dataclass. */
  const PropertyFields: set<string> := {"statusName", "statusCode", "get", "set", "inf", "valueType"}
  /** The fields of the `PropertyStatus` dataclass. */
  const StatusFields: set<string> := {"statusCode", "valueType"}
  /** The fields of `DeviceProperty` other than its two lists. */
  const DevicePropertyFields: set<string> :=
    {"deviceId", "echonetNode", "echonetObject", "registerLevel", "label", "className",
     "maker", "series", "model", "place", "propertyUpdatedAt"}

  /** `{k: v for k, v in m.items() if k not in [value keys]}` */
  function WithoutValueKeys(m: Record): (r: Record)
    ensures r.Keys == m.Keys - ValueKeys
    ensures forall k :: k in r ==> r[k] == m[k]
  {
    map k | k in m && k !in ValueKeys :: m[k]
  }

  /** Iterating a JSON value as a `for` loop does, before each element is
      subscripted by a string: a list yields its elements; an empty string or
      dictionary yields nothing; anything else fails with a type error (not
      iterable, or an element that cannot be subscripted by a string). */
  function Elements(j: Json): (r: Result<seq<Json>>)
    ensures j.JArr? ==> r == Ok(j.items)
    ensures r.Ok? ==> j.JArr? || j == JStr("") || j == EmptyObject
    ensures r.Err? ==> r.error == TypeError
  {
    match j
    case JArr(xs) => Ok(xs)
    case JStr(s) => if s == "" then Ok([]) else Err(TypeError)
    case JObj(m) => if m == map[] then Ok([]) else Err(TypeError)
    case _ => Err(TypeError)
  }

  /** One property record, as one turn of the first loop. */
  function ParsePropertyRecord(item: Json): (r: Result<Property>)
    ensures !item.JObj? ==> r == Err(TypeError)
    ensures item.JObj? && "valueType" !in item.fields ==> r == Err(KeyError("valueType"))
    ensures item.JObj? && "valueType" in item.fields && ValueTypeFromWire(item.fields["valueType"]).Err? ==>
              r == Err(ValueError(item.fields["valueType"]))
    ensures r.Ok? <==>
              item.JObj? && "valueType" in item.fields && ValueTypeFromWire(item.fields["valueType"]).Ok? &&
              item.fields.Keys - ValueKeys == PropertyFields
    ensures r.Ok? ==>
              var m := item.fields;
              && m["valueType"] == JStr(r.value.valueType().Wire())
              && r.value.statusName == m["statusName"] && r.value.statusCode == m["statusCode"]
              && r.value.canGet == m["get"] && r.value.canSet == m["set"] && r.value.inf == m["inf"]
              && (r.value.SingleProperty? ==> r.value.valueSingle == Get(m, "valueSingle", EmptyList))
              && (r.value.RangeProperty? ==> r.value.valueRange == Get(m, "valueRange", EmptyObject))
  {
    if !item.JObj? then Err(TypeError)
    else
      var prop := item.fields;
      if "valueType" !in prop then Err(KeyError("valueType"))
      else
        var propType :- ValueTypeFromWire(prop["valueType"]);
        var d := WithoutValueKeys(prop);
        if d.Keys != PropertyFields then Err(TypeError)
        else
          match propType
          case Single =>
            Ok(SingleProperty(d["statusName"], d["statusCode"], d["get"], d["set"], d["inf"],
                              Get(prop, "valueSingle", EmptyList)))
          case Binary =>
            Ok(BinaryProperty(d["statusName"], d["statusCode"], d["get"], d["set"], d["inf"]))
          case Range =>
            Ok(RangeProperty(d["statusName"], d["statusCode"], d["get"], d["set"], d["inf"],
                             Get(prop, "valueRange", EmptyObject)))
  }

  /** One status record, as one turn of the second loop. */
  function ParseStatusRecord(item: Json): (r: Result<PropertyStatus>)
    ensures !item.JObj? ==> r == Err(TypeError)
    ensures item.JObj? && "valueType" !in item.fields ==> r == Err(KeyError("valueType"))
    ensures item.JObj? && "valueType" in item.fields && ValueTypeFromWire(item.fields["valueType"]).Err? ==>
              r == Err(ValueError(item.fields["valueType"]))
    ensures r.Ok? <==>
              item.JObj? && "valueType" in item.fields && ValueTypeFromWire(item.fields["valueType"]).Ok? &&
              item.fields.Keys - ValueKeys == StatusFields
    ensures r.Ok? ==>
              var m := item.fields;
              && m["valueType"] == JStr(r.value.valueType().Wire())
              && r.value.statusCode == m["statusCode"]
              && r.value.Payload() == Get(m, r.value.valueType().Wire(), EmptyObject)
  {
    if !item.JObj? then Err(TypeError)
    else
      var status := item.fields;
      if "valueType" !in status then Err(KeyError("valueType"))
      else
        var statusType :- ValueTypeFromWire(status["valueType"]);
        var d := WithoutValueKeys(status);
        if d.Keys != StatusFields then Err(TypeError)
        else
          match statusType
          case Single => Ok(SinglePropertyStatus(d["statusCode"], Get(status, "valueSingle", EmptyObject)))
          case Binary => Ok(BinaryPropertyStatus(d["statusCode"], Get(status, "valueBinary", EmptyObject)))
          case Range => Ok(RangePropertyStatus(d["statusCode"], Get(status, "valueRange", EmptyObject)))
  }

  /** Parsing a list element by element, stopping at the first failure. */
  function ParseAll<T>(items: seq<Json>, parse: Json -> Result<T>): (r: Result<seq<T>>)
    ensures r.Ok? ==> |r.value| == |items|
  {
    if items == [] then Ok([])
    else
      var init :- ParseAll(items[..|items| - 1], parse);
      var last :- parse(items[|items| - 1]);
      Ok(init + [last])
  }

  /** A list parses exactly when every element does, into one result per
      element, in the same order. */
  lemma {:induction false} ParseAllElementwise<T>(items: seq<Json>, parse: Json -> Result<T>)
    ensures ParseAll(items, parse).Ok? <==> forall i :: 0 <= i < |items| ==> parse(items[i]).Ok?
    ensures ParseAll(items, parse).Ok? ==>
              |ParseAll(items, parse).value| == |items| &&
              forall i :: 0 <= i < |items| ==> ParseAll(items, parse).value[i] == parse(items[i]).value
  {
    if items != [] {
      var init := items[..|items| - 1];
      ParseAllElementwise(init, parse);
      assert forall i :: 0 <= i < |init| ==> init[i] == items[i];
    }
  }

  /** A list that fails to parse fails with the error of its first bad element. */
  lemma {:induction false} ParseAllFirstError<T>(items: seq<Json>, parse: Json -> Result<T>, i: nat)
    requires i < |items| && parse(items[i]).Err?
    requires forall j :: 0 <= j < i ==> parse(items[j]).Ok?
    ensures ParseAll(items, parse) == Err(parse(items[i]).error)
  {
    var init := items[..|items| - 1];
    if i < |items| - 1 {
      assert forall j :: 0 <= j < i ==> init[j] == items[j];
      ParseAllFirstError(init, parse, i);
    } else {
      ParseAllElementwise(init, parse);
      assert forall j :: 0 <= j < |init| ==> init[j] == items[j];
    }
  }

  /** Extending a parsed prefix by one element (the step of the loops below). */
  lemma ParseAllStep<T>(items: seq<Json>, parse: Json -> Result<T>, i: nat, done: seq<T>)
    requires i < |items| && ParseAll(items[..i], parse) == Ok(done)
    ensures parse(items[i]).Ok? ==> ParseAll(items[..i + 1], parse) == Ok(done + [parse(items[i]).value])
    ensures parse(items[i]).Err? ==> ParseAll(items, parse) == Err(parse(items[i]).error)
  {
    assert items[..i + 1][..i] == items[..i];
    if parse(items[i]).Err? {
      ParseAllElementwise(items[..i], parse);
      assert forall j :: 0 <= j < i ==> items[..i][j] == items[j];
      ParseAllFirstError(items, parse, i);
    }
  }

  /** The two lists of a device-property response. */
  datatype DeviceProperties = DeviceProperties(properties: seq<Property>, status: seq<PropertyStatus>)

  /** The whole constructor of `QueryDevicePropertiesResponse`. */
  function ParseDeviceProperty(dp: Record): (r: Result<DeviceProperties>)
    ensures r.Ok? ==> dp.Keys - {"property", "status"} == DevicePropertyFields
    ensures "property" in dp && Elements(dp["property"]).Err? ==> r == Err(TypeError)
  {
    var propItems :- Elements(Get(dp, "property", EmptyList));
    var properties :- ParseAll(propItems, ParsePropertyRecord);
    var statusItems :- Elements(Get(dp, "status", EmptyList));
    var statuses :- ParseAll(statusItems, ParseStatusRecord);
    if dp.Keys - {"property", "status"} != DevicePropertyFields then Err(TypeError)
    else Ok(DeviceProperties(properties, statuses))
  }

  /** `QueryDevicePropertiesResponse(device_property)`: two loops appending the
      parsed records. */
  method QueryDevicePropertiesResponse(dp: Record) returns (r: Result<DeviceProperties>)
    ensures r == ParseDeviceProperty(dp)
  {
    var propItems :- Elements(Get(dp, "property", EmptyList));
    var properties: seq<Property> := [];
    var i := 0;
    while i < |propItems|
      invariant 0 <= i <= |propItems|
      invariant ParseAll(propItems[..i], ParsePropertyRecord) == Ok(properties)
    {
      ParseAllStep(propItems, ParsePropertyRecord, i, properties);
      var p := ParsePropertyRecord(propItems[i]);
      if p.Err? {
        return Err(p.error);
      }
      properties := properties + [p.value];
      i := i + 1;
    }
    assert propItems[..i] == propItems;

    var statusItems :- Elements(Get(dp, "status", EmptyList));
    var statuses: seq<PropertyStatus> := [];
    var j := 0;
    while j < |statusItems|
      invariant 0 <= j <= |statusItems|
      invariant ParseAll(statusItems[..j], ParseStatusRecord) == Ok(statuses)
    {
      ParseAllStep(statusItems, ParseStatusRecord, j, statuses);
      var s := ParseStatusRecord(statusItems[j]);
      if s.Err? {
        return Err(s.error);
      }
      statuses := statuses + [s.value];
      j := j + 1;
    }
    assert statusItems[..j] == statusItems;

    if dp.Keys - {"property", "status"} != DevicePropertyFields {
      return Err(TypeError);
    }
    r := Ok(DeviceProperties(properties, statuses));
  }

  /** A response without a `"property"` or `"status"` key yields an empty list for it. */
  lemma MissingListsAreEmpty(dp: Record)
    requires ParseDeviceProperty(dp).Ok?
    ensures "property" !in dp ==> ParseDeviceProperty(dp).value.properties == []
    ensures "status" !in dp ==> ParseDeviceProperty(dp).value.status == []
  {
  }

  /** Parsed properties and statuses match the input records one for one, in order. */
  lemma DevicePropertyElementwise(dp: Record)
    requires ParseDeviceProperty(dp).Ok?
    ensures var props := Elements(Get(dp, "property", EmptyList)).value;
      |ParseDeviceProperty(dp).value.properties| == |props| &&
      forall i :: 0 <= i < |props| ==> Ok(ParseDeviceProperty(dp).value.properties[i]) == ParsePropertyRecord(props[i])
    ensures var sts := Elements(Get(dp, "status", EmptyList)).value;
      |ParseDeviceProperty(dp).value.status| == |sts| &&
      forall i :: 0 <= i < |sts| ==> Ok(ParseDeviceProperty(dp).value.status[i]) == ParseStatusRecord(sts[i])
  {
    ParseAllElementwise(Elements(Get(dp, "property", EmptyList)).value, ParsePropertyRecord);
    ParseAllElementwise(Elements(Get(dp, "status", EmptyList)).value, ParseStatusRecord);
  }

  /** `ControlListResponse(**body)`: the body must have exactly the key `"controlList"`. */
  function ControlListResponse(body: Record): (r: Result<Json>)
    ensures r.Ok? <==> body.Keys == {"controlList"}
    ensures r.Ok? ==> r.value == body["controlList"]
    ensures r.Err? ==> r.error == TypeError
  {
    if body.Keys == {"controlList"} then Ok(body["controlList"]) else Err(TypeError)
  }

  /** One polled control result. `status` is a member of the control-result
      status enumeration, which is not part of this model and is given as the
      set of its wire strings. */
  datatype ControlResultItem = ControlResultItem(
    id: Json, status: string, message: Json, cancelledBy: Json,
    errorCode: Json, epc: Json, edt: Json)

  /** `ControlResultItem(id=item["id"], status=ControlResultStatus(item["status"]), ...)`,
      evaluated left to right. */
  function ParseResultItem(item: Json, statuses: set<string>): (r: Result<ControlResultItem>)
    ensures r.Ok? <==>
              item.JObj? && item.fields.Keys >= {"id", "status", "message", "cancelled_by", "errorCode", "epc", "edt"} &&
              item.fields["status"].JStr? && item.fields["status"].s in statuses
    ensures r.Ok? ==>
              var m := item.fields;
              r.value == ControlResultItem(m["id"], m["status"].s, m["message"], m["cancelled_by"],
                                           m["errorCode"], m["epc"], m["edt"])
  {
    if !item.JObj? then Err(TypeError)
    else
      var m := item.fields;
      if "id" !in m then Err(KeyError("id"))
      else if "status" !in m then Err(KeyError("status"))
      else if !(m["status"].JStr? && m["status"].s in statuses) then Err(ValueError(m["status"]))
      else if "message" !in m then Err(KeyError("message"))
      else if "cancelled_by" !in m then Err(KeyError("cancelled_by"))
      else if "errorCode" !in m then Err(KeyError("errorCode"))
      else if "epc" !in m then Err(KeyError("epc"))
      else if "edt" !in m then Err(KeyError("edt"))
      else Ok(ControlResultItem(m["id"], m["status"].s, m["message"], m["cancelled_by"],
                                m["errorCode"], m["epc"], m["edt"]))
  }

  /** `ControlResultResponse(resultList)`: a comprehension over the list. */
  function ControlResultResponse(resultList: seq<Json>, statuses: set<string>): (r: Result<seq<ControlResultItem>>)
    ensures r.Ok? ==> |r.value| == |resultList|
    ensures resultList == [] ==> r == Ok([])
  {
    ParseAll(resultList, item => ParseResultItem(item, statuses))
  }

  /** The result list maps the items one to one, in order, copying all seven fields. */
  lemma ControlResultsElementwise(resultList: seq<Json>, statuses: set<string>)
    ensures ControlResultResponse(resultList, statuses).Ok? <==>
              forall i :: 0 <= i < |resultList| ==> ParseResultItem(resultList[i], statuses).Ok?
    ensures ControlResultResponse(resultList, statuses).Ok? ==>
              var items := ControlResultResponse(resultList, statuses).value;
              |items| == |resultList| &&
              forall i :: 0 <= i < |resultList| ==>
                var m := resultList[i].fields;
                items[i] == ControlResultItem(m["id"], m["status"].s, m["message"], m["cancelled_by"],
                                              m["errorCode"], m["epc"], m["edt"])
  {
    var parse := item => ParseResultItem(item, statuses);
    ParseAllElementwise(resultList, parse);
    assert forall i :: 0 <= i < |resultList| ==> parse(resultList[i]) == ParseResultItem(resultList[i], statuses);
  }
}
