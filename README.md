# sharp-cocoro in Dafny

A model of the core of `sharp-cocoro`. This Python client talks to Sharp's
Cocoro Air cloud service, which controls air conditioners and air purifiers.
The model covers four parts.

- **The State8 register.** This is a 160-character hexadecimal blob that an
  air conditioner reports and accepts. It carries the set-point temperature at
  positions 52-53 and the fan direction at positions 96-97. Positions 0-1
  (and 6) hold a command header.
  - `register.dfy` holds the codec as functions on strings.
  - `state.dfy` and `src_state.dfy` hold the two `State8` classes (the packaged
    `sharp_cocoro/state.py` and the older `src/state.py`). Each has a `state`
    field that its setters reassign.
  - `numerals.dfy` models the Python built-ins the codec rests on: `int(s, 16)`,
    `int(x)` on a JSON value, `hex(n)[2:].zfill(2)`, `f"{n:02x}"` and
    `f"{n:02d}"`.
- **The property data model and the response parsers.** `properties.dfy` holds
  the enumerations and the three property and status variants.
  `response_types.dfy` holds:
  - the parser of a device-property listing, as a specification function plus a
    method with the two loops of the source;
  - the control-list wrapper;
  - the control-result items.
- **The device and its update queue.** `device.dfy` holds:
  - a `Device` class whose `status` and `propertyUpdates` fields change in place;
  - the queue, as an ordered sequence of pending updates with one entry per
    status code (the order of a Python dict, where an overwrite keeps the first
    position);
  - the whitelist check of `queue_property_status_update`;
  - the two lookups.

  `aircon.dfy` and `purifier.dfy` hold the device-family queue operations (with
  their whitelists) and the getters.
- **Batch processing and dispatch.** `cocoro.dfy` holds:
  - the request body;
  - the error aggregation of the control-list response;
  - the batch that writes queued updates into the status list and clears the
    queue;
  - the device-type dispatch of `query_devices`;
  - `fetch_device`.

  `src_cocoro.dfy` repeats the two loops of `src/cocoro.py` against the same
  specification functions.

JSON values are the datatype `Json`. Records are `map<string, Json>`. Python
exceptions are `Error` values: `KeyError`, `TypeError`, `ValueError`,
`IndexError`, `AttributeError`, `AssertionError` and the library's own
messages. An operation that can raise returns `Result` or `Outcome`.

The status-code and enum-member strings (`StatusCode.*`, `ValueSingle.*`)
come from per-family modules. Those modules are not part of this model.
They are passed in as records of strings (`AirconCodes`, `PurifierCodes`),
so every statement holds for any choice of constants.

Notable behaviours of the code, as the model states them:

- The temperature encoder truncates toward zero (`int(t * 2)`); it does not
  round.
- Setting the fan direction leaves positions 52-53 alone, so the temperature
  still decodes afterwards (`Register.FanKeepsTemperature`).
- No 160-character or hex-format check exists. A register shorter than 54
  makes the temperature getter and setter raise `IndexError`, and the fan
  setter raises it below 98. The fan-direction getter slices, so a register
  of at most 96 characters raises `ValueError` from `int()`, and one of 97
  reads a single digit. A non-hex pair raises `ValueError` from `int()`.
- The fan direction has no range check.
- A queued update whose value kind differs from the property's is not rejected
  (`Devices.ValidationReadsOnlyTheCode`).
- An unknown `valueType` is the `ValueError` of the `ValueType` enum.
- A status lookup can raise `AttributeError` (see Findings).
- Queued updates keep dict insertion order.

## Model

| member | source | states |
|---|---|---|
| Register.DecodeTemperature | sharp_cocoro/state.py:6-8 | a register shorter than 54 raises IndexError; otherwise the only failure is the ValueError of `int()` on the two characters at 52-53 |
| Register.WithTemperature | sharp_cocoro/state.py:10-23 | the setter keeps the register's length and writes '2' at position 6 |
| Register.DecodeFanDirection | sharp_cocoro/state.py:25-28 | the only failure is the ValueError of `int()` on the slice `[96:98]`; a register of at most 96 characters gives the empty slice and fails |
| Register.WithFanDirection | sharp_cocoro/state.py:30-46 | the setter keeps the register's length |
| Register.Zeros | sharp_cocoro/state.py:2 | the default register is 160 `'0'` characters |
| Register.Slice | sharp_cocoro/state.py:28 | Python slicing `s[i:j]` within bounds is the sequence slice |
| Register.DefaultRegister | sharp_cocoro/state.py:2-28 | a fresh register is 160 zeros and decodes to 0.0 degrees and fan direction 0 |
| Register.TemperatureFrame | sharp_cocoro/state.py:11-23 | the temperature setter keeps the length and changes no position except 0, 1, 6, 52 and 53 |
| Register.TemperatureDigits | sharp_cocoro/state.py:13-15 | for int(2t) in 0..255, positions 52-53 are the two lower-case hex digits of int(2t) |
| Register.TemperatureRoundTrip | sharp_cocoro/state.py:6-15 | decoding after setting t gives int(2t)/2, for every register of length at least 54 |
| Register.HalfDegreesRoundTrip | sharp_cocoro/state.py:6-15 | every multiple of 0.5 in 0..127.5 reads back exactly |
| Register.TemperatureTruncates | sharp_cocoro/state.py:13 | for 0 <= t < 128 the decoded value d satisfies d <= t < d + 0.5 (truncation, not rounding) |
| Register.DecodeHexDigits | sharp_cocoro/state.py:6-8 | any two hex digits at 52-53 decode to (16·hi + lo)/2 |
| Register.TemperatureHeader | sharp_cocoro/state.py:17-21 | position 6 becomes '2'; positions 0-1 hold the first two hex digits of int(2(t+16)), which is int(2t)+32 for t >= 0, in exact real arithmetic |
| Register.FanDirectionFrame | sharp_cocoro/state.py:30-46 | the fan setter keeps the length and changes no position except 0, 1, 96 and 97 |
| Register.FanDirectionDigits | sharp_cocoro/state.py:41-44 | for 0 <= f <= 99, positions 96-97 are the two decimal digits of f |
| Register.FanDirectionRoundTrip | sharp_cocoro/state.py:25-44 | for 0 <= f <= 99, reading the fan direction after setting f gives f |
| Register.DecodeDecimalDigits | sharp_cocoro/state.py:28 | any two decimal digits at 96-97 read as 10·hi + lo |
| Register.FanDirectionHeader | sharp_cocoro/state.py:36-39 | positions 0-1 hold 0xC1 + f in hex; above f = 62 the value has three digits and only the first two are written |
| Register.TemperatureWrites | sharp_cocoro/state.py:13-21 | on a register of at least 54 characters, positions 52-53 hold the first two characters of `hex(int(2t))[2:].zfill(2)`, position 6 holds '2', and positions 0-1 the first two characters of `hex(int(2(t+16)))[2:].zfill(2)` |
| Register.FanDirectionWrites | sharp_cocoro/state.py:37-44 | on a register of at least 98 characters, positions 0-1 hold the first two characters of `f"{0xC1+f:02x}"` and positions 96-97 the first two of `f"{f:02d}"` |
| Register.FanKeepsTemperature | sharp_cocoro/state.py:30-46 | setting the fan direction never changes the decoded temperature |
| Register.TemperatureKeepsFanDirection | sharp_cocoro/state.py:10-28 | setting the temperature never changes the decoded fan direction |
| Register.LastSetterOwnsHeader | sharp_cocoro/state.py:14-44 | after both setters, positions 0-1 are those written by the last one; every other position is the same in either order |
| Register.WorkedExample | sharp_cocoro/state.py:13-21 | 23.5 degrees on the default register writes "2f" at 52-53, "4f" at 0-1 and '2' at 6 |
| Numerals.ParseInt | sharp_cocoro/state.py:8 | `int(s, base)` fails only with a ValueError naming the string |
| Numerals.ParsePair | sharp_cocoro/state.py:7-8 | `int` of two digits of the base is hi·base + lo |
| Numerals.HexTextRoundTrip | sharp_cocoro/state.py:8-13 | `int(hex(n)[2:], 16) == n` for every natural n |
| Numerals.HexPair | sharp_cocoro/state.py:13 | for n < 256, `hex(n)[2:].zfill(2)` and `f"{n:02x}"` are both the two digits n/16, n%16 |
| Numerals.HexBody | sharp_cocoro/state.py:13 | `hex(n)[2:].zfill(2)` has at least two characters, and for a negative n it starts with the `x` of `-0x` |
| Numerals.Format02x | sharp_cocoro/state.py:37 | `f"{n:02x}"` has at least two characters, and for a negative n it starts with the minus sign where `hex(n)[2:]` starts with `x` |
| Numerals.HexTriple | sharp_cocoro/state.py:19 | for 256 <= n < 4096 the hex text has three digits |
| Numerals.DecimalPair | sharp_cocoro/state.py:42 | for n < 100, `f"{n:02d}"` is the two decimal digits of n |
| Numerals.DecimalRoundTrip | sharp_cocoro/devices/aircon/aircon.py:18 | `int(str(n)) == n` for every natural n |
| Numerals.PyInt | sharp_cocoro/devices/aircon/aircon.py:18 | `int(x)` on a JSON value: ints pass through, booleans give 0/1, null/list/dict give TypeError, a bad string gives ValueError |
| Numerals.Trunc | sharp_cocoro/state.py:13-19 | `int(x)` of a number truncates toward zero: the floor for x >= 0, minus the floor of -x below 0 |
| Numerals.LowerHex | sharp_cocoro/state.py:13-19 | `hex(n)[2:]` of a natural n is a non-empty string of hex digits (HexTextRoundTrip reads it back as n) |
| Numerals.ZFill2 | sharp_cocoro/state.py:13-19 | `s.zfill(2)` pads to two characters and leaves a string of two or more characters unchanged |
| Numerals.Format02d | sharp_cocoro/state.py:42 | `f"{n:02d}"` has at least two characters |
| Numerals.Format02dReadsBack | sharp_cocoro/state.py:42 | `int(f"{n:02d}") == n` for every natural n, leading zero included |
| Numerals.ShowIntRoundTrip | sharp_cocoro/cocoro.py:128 | the `str()` of an integer error code or id, sign included, reads back as that integer through `int()` |
| Json.Show | sharp_cocoro/cocoro.py:128 | the `str()` of a string inside the f-string is the string itself |
| Json.FalsyValues | sharp_cocoro/cocoro.py:126-130 | a JSON value is falsy exactly when it is None, False, 0, "", [] or {}, the truthiness the `if control_list:` and `if row["errorCode"]` tests use |
| State.State8.Default | sharp_cocoro/state.py:2-3 | `State8()` holds the all-zero register |
| State.State8.constructor | sharp_cocoro/state.py:2-3 | `State8(s)` holds s unchanged |
| State.State8.Temperature | sharp_cocoro/state.py:5-8 | the getter raises IndexError on a register shorter than 54, and otherwise fails only with the ValueError of the two characters at 52-53 |
| State.State8.FanDirection | sharp_cocoro/state.py:25-28 | the getter succeeds only on a register of at least 97 characters and fails only with the ValueError of the slice `[96:98]` |
| State.State8.SetTemperature | sharp_cocoro/state.py:10-23 | IndexError and no change when the register is shorter than 54; otherwise the register becomes WithTemperature of the old one |
| State.State8.SetFanDirection | sharp_cocoro/state.py:30-46 | IndexError and no change when the register is shorter than 98; otherwise the register becomes WithFanDirection of the old one |
| SrcState.State8.Default | src/state.py:2-3 | `State8()` holds the all-zero register |
| SrcState.State8.constructor | src/state.py:2-3 | `State8(s)` holds s unchanged |
| SrcState.State8.Temperature | src/state.py:5-8 | the same getter contract as the packaged class |
| SrcState.State8.SetTemperature | src/state.py:10-23 | the same register update as the packaged class, position for position |
| Properties.ValueTypeFromWire | sharp_cocoro/properties.py:20-23 | `ValueType(x)` succeeds only on a member's wire string and otherwise raises ValueError(x) |
| Properties.ValueTypeMembers | sharp_cocoro/properties.py:20-23 | the three wire strings are distinct, each decodes to its member, and nothing else decodes |
| Properties.RangePropertyTypeFromWire | sharp_cocoro/properties.py:25-27 | `RangePropertyType(x)` succeeds exactly on "int" and "float" and otherwise raises ValueError(x) |
| Properties.DeviceTypeFromWire | sharp_cocoro/properties.py:11-14 | `DeviceType(x)` succeeds exactly on "UNKNOWN", "AIR_CON" and "AIR_CLEANER" and otherwise raises ValueError(x) |
| ResponseTypes.WithoutValueKeys | sharp_cocoro/response_types.py:117-121 | the copied record has every key except the three payload keys, with the same values |
| ResponseTypes.Elements | sharp_cocoro/response_types.py:115 | iterating a JSON value: a list yields its items, an empty string or dict yields nothing, anything else raises TypeError |
| ResponseTypes.ParsePropertyRecord | sharp_cocoro/response_types.py:116-132 | TypeError on a non-object, KeyError without valueType, ValueError on an unknown one; succeeds exactly when the remaining keys are the dataclass fields; fields are copied, and the payload defaults to [] (single) or {} (range) |
| ResponseTypes.ParseStatusRecord | sharp_cocoro/response_types.py:136-153 | the same error order for statuses; the payload under the value type's own key defaults to {} |
| ResponseTypes.ParseAll | sharp_cocoro/response_types.py:114-153 | a parsed list has one result per item |
| ResponseTypes.ParseAllElementwise | sharp_cocoro/response_types.py:114-153 | a list parses exactly when every item parses, and then the i-th result is the parse of the i-th item |
| ResponseTypes.ParseAllFirstError | sharp_cocoro/response_types.py:114-153 | a failing list raises the error of its first failing item |
| ResponseTypes.ParseAllStep | sharp_cocoro/response_types.py:115-130 | one loop iteration extends the parsed prefix by one item, or stops with that item's error |
| ResponseTypes.ParseDeviceProperty | sharp_cocoro/response_types.py:112-163 | a listing parses only when its keys other than the two lists are exactly the dataclass fields; a "property" value that cannot be iterated raises TypeError |
| ResponseTypes.QueryDevicePropertiesResponse | sharp_cocoro/response_types.py:112-163 | the two loops compute the listing specification, errors included |
| ResponseTypes.MissingListsAreEmpty | sharp_cocoro/response_types.py:115-135 | a missing "property" or "status" key gives an empty list |
| ResponseTypes.DevicePropertyElementwise | sharp_cocoro/response_types.py:112-163 | a parsed listing has one property and one status per input item, each the record parse of that item |
| ResponseTypes.ControlListResponse | sharp_cocoro/response_types.py:166-168 | `ControlListResponse(**body)` succeeds exactly when the body's only key is controlList, else TypeError |
| ResponseTypes.ParseResultItem | sharp_cocoro/response_types.py:186-196 | an item parses exactly when it has all seven keys and a known status, and then carries those values |
| ResponseTypes.ControlResultResponse | sharp_cocoro/response_types.py:186-198 | one result item per input item; an empty list gives an empty result |
| ResponseTypes.ControlResultsElementwise | sharp_cocoro/response_types.py:186-198 | a result list parses exactly when every item does, item by item |
| Devices.CodeOf | sharp_cocoro/device.py:50 | the status code of a status entry, parsed or raw |
| Devices.ToEntry | sharp_cocoro/cocoro.py:140 | a stored update keeps its status code and is the parsed status when the record is a valid status |
| Devices.FindProperty | sharp_cocoro/device.py:33-35 | the index of the first property with the code, or none exactly when no property has it |
| Devices.GetProperty | sharp_cocoro/device.py:46-47 | the first property with the code, or None exactly when there is none |
| Devices.FindStatus | sharp_cocoro/device.py:49-50 | the index of the first status entry with the code, or none exactly when none has it |
| Devices.GetPropertyStatus | sharp_cocoro/device.py:49-50 | the first status entry with the code, or None exactly when there is none |
| Devices.GetPropertyStatusAsWritten | sharp_cocoro/device.py:49-50 | the lookup as written raises AttributeError exactly when a raw entry comes before every parsed status with the code, and otherwise finds what the corrected lookup finds |
| Devices.LookupAgreesOnParsedStatus | sharp_cocoro/device.py:49-50 | on an all-parsed status list the lookup as written equals the corrected lookup |
| Devices.LookupBehindRawEntryFails | sharp_cocoro/device.py:49-50 | a raw entry before the sought status makes the lookup as written raise AttributeError, where the corrected one finds it |
| Devices.FindStatusByCodes | sharp_cocoro/device.py:49-50 | the lookup depends only on the entries' status codes |
| Devices.Lookup | sharp_cocoro/device.py:41 | `property_updates.get(code)`: None exactly when no entry has the code, else the record of the first entry with it |
| Devices.Put | sharp_cocoro/device.py:41 | `property_updates[code] = rec`: an existing code keeps the length, a new one is appended last, entries with other codes are untouched, and the new entry is present |
| Devices.Validate | sharp_cocoro/device.py:31-44 | KeyError exactly when statusCode is missing; acceptance exactly when the first property with the code is settable and the code is hashable; "does not exist" when no property has the code |
| Devices.IndexOf | sharp_cocoro/device.py:41 | the position of a code in the queue, first match |
| Devices.Values | sharp_cocoro/cocoro.py:106 | `list(property_updates.values())` is the records in queue order |
| Devices.LookupUnique | sharp_cocoro/device.py:41 | in a well-formed queue every entry is what its code looks up |
| Devices.IndexOfFirst | sharp_cocoro/device.py:41 | the first position holding a code is what the queue reports for it |
| Devices.IndexOfPutSame | sharp_cocoro/device.py:41 | after a put, the code sits at its old position, or at the end when it was new |
| Devices.IndexOfPutOther | sharp_cocoro/device.py:41 | a put does not move any other code |
| Devices.PutLookup | sharp_cocoro/device.py:41 | after a put the code maps to the new record and every other code is unchanged |
| Devices.LookupSnoc | sharp_cocoro/device.py:41 | appending an entry affects only a code that was absent |
| Devices.LookupCarriesCode | sharp_cocoro/device.py:41 | a queued record carries its own code under "statusCode" |
| Devices.PutKeepsOrder | sharp_cocoro/device.py:41 | overwriting keeps the length and positions, a new code is appended last, and other entries are untouched |
| Devices.PutTwice | sharp_cocoro/device.py:41 | queueing the same code twice equals queueing only the second record |
| Devices.PutWellFormed | sharp_cocoro/device.py:41 | a put keeps the queue's codes unique and each record matching its code |
| Devices.FirstMatchDecides | sharp_cocoro/device.py:33-42 | validation is decided by the first property with the code; later properties do not matter |
| Devices.FindPropertyPrefix | sharp_cocoro/device.py:33-35 | a match in a prefix is still the first match of the longer list |
| Devices.ValidationCases | sharp_cocoro/device.py:33-42 | the first matching property rejects with "not settable" when its set flag is falsy and accepts a hashable code otherwise |
| Devices.UnknownCodeFails | sharp_cocoro/device.py:44 | a code no property has is rejected with "does not exist" |
| Devices.ValidationReadsOnlyTheCode | sharp_cocoro/device.py:31-42 | changing any key other than statusCode never changes the verdict |
| Devices.Device.constructor | sharp_cocoro/device.py:7-21 | the device keeps its identity, properties and statuses and starts with an empty queue |
| Devices.Device.QueuePropertyStatusUpdate | sharp_cocoro/device.py:31-44 | the outcome is the whitelist verdict; on acceptance the queue is the put of the update and is still well formed; the status list never changes |
| Devices.Subscript | sharp_cocoro/devices/aircon/aircon.py:10 | `x['k']`: the value when present, KeyError when absent, TypeError on a non-object |
| Devices.EnumMember | sharp_cocoro/devices/aircon/aircon.py:23 | an enum constructor succeeds exactly on a member string and otherwise raises ValueError |
| Devices.SingleCode | sharp_cocoro/devices/purifier/purifier.py:6-19 | a single-value read returns a member held by the first status with the code; when that status is a single status holding v, the result is the enum constructor's verdict on v |
| Devices.RangeInt | sharp_cocoro/devices/purifier/purifier.py:21-39 | a range read is `int()` of the code held by the first status with the code whenever that status is a range status, and succeeds only then |
| Devices.SingleCodeReads | sharp_cocoro/devices/purifier/purifier.py:6-19 | a single-value getter returns v exactly when the first status with the code is a single status holding v and v is a member; a non-member raises ValueError; a missing status or one of another kind fails the assertion |
| Devices.RangeIntReads | sharp_cocoro/devices/purifier/purifier.py:21-39 | a range getter fails its assertion unless the entry is a parsed range status; a decimal or integer code reads back as that integer, and a missing code raises KeyError |
| Devices.SingleUpdate | sharp_cocoro/devices/aircon/aircon.py:38-44 | the update record has exactly statusCode, valueType "valueSingle" and the code payload |
| Devices.BinaryUpdate | sharp_cocoro/devices/aircon/aircon.py:29-35 | the update record has exactly statusCode, valueType "valueBinary" and the code payload |
| Devices.UpdatesParseAsStatus | sharp_cocoro/cocoro.py:140 | every queued update record is a valid status of its kind once stored |
| Aircon.OperationModes | sharp_cocoro/devices/aircon/aircon.py:56-63 | the operation-mode whitelist has six members |
| Aircon.Windspeeds | sharp_cocoro/devices/aircon/aircon.py:76-86 | the windspeed whitelist has nine members |
| Aircon.QueueTemperatureUpdate | sharp_cocoro/devices/aircon/aircon.py:25-35 | queues a binary state-detail update holding the default register with the temperature set |
| Aircon.QueuePowerOn | sharp_cocoro/devices/aircon/aircon.py:37-44 | queues the power-on single update under the power code, subject to the whitelist |
| Aircon.QueuePowerOff | sharp_cocoro/devices/aircon/aircon.py:46-53 | queues the power-off single update under the power code, subject to the whitelist |
| Aircon.QueueOperationModeUpdate | sharp_cocoro/devices/aircon/aircon.py:55-73 | a mode outside the six raises "Invalid operation mode" and queues nothing; a listed mode is queued as a single update |
| Aircon.QueueWindspeedUpdate | sharp_cocoro/devices/aircon/aircon.py:75-96 | a speed outside the nine raises "Invalid windspeed mode" and queues nothing; a listed speed is queued |
| Aircon.TemperatureUpdate | sharp_cocoro/devices/aircon/aircon.py:25-35 | the queued record is a binary state-detail update whose code is a 160-character register that decodes to int(2t)/2 |
| Aircon.State8Register | sharp_cocoro/devices/aircon/aircon.py:7-10 | the register is the code held by the first state-detail status when that is a binary status (a non-string code, which the source wraps unchecked, is a TypeError here; see Left out) |
| Aircon.Temperature | sharp_cocoro/devices/aircon/aircon.py:12-13 | the temperature is the decoding of the register held by the first state-detail status, and succeeds only when such a register exists |
| Aircon.RoomTemperature | sharp_cocoro/devices/aircon/aircon.py:15-18 | `int()` of the code held by the first room-temperature range status, and succeeds only when there is one |
| Aircon.Windspeed | sharp_cocoro/devices/aircon/aircon.py:20-23 | the windspeed is the member held by the first windspeed single status, and every member held there is what it reads |
| Aircon.TemperatureDecodesState8 | sharp_cocoro/devices/aircon/aircon.py:7-13 | the temperature getter fails its assertion unless state detail is a parsed binary status; otherwise it decodes that status's code register |
| Aircon.RoomTemperatureParsesCode | sharp_cocoro/devices/aircon/aircon.py:15-18 | a room-temperature range status whose code is the decimal text of n reads as n |
| Purifier.OperationModes | sharp_cocoro/devices/purifier/purifier.py:56-61 | the operation-mode whitelist has four members |
| Purifier.AirVolumes | sharp_cocoro/devices/purifier/purifier.py:72-79 | the air-volume whitelist has six members |
| Purifier.QueuePowerOn | sharp_cocoro/devices/purifier/purifier.py:41-46 | queues the power-on single update, subject to the whitelist |
| Purifier.QueuePowerOff | sharp_cocoro/devices/purifier/purifier.py:48-53 | queues the power-off single update, subject to the whitelist |
| Purifier.QueueOperationModeUpdate | sharp_cocoro/devices/purifier/purifier.py:55-69 | a mode outside the four raises "Invalid operation mode" and queues nothing; a listed mode is queued |
| Purifier.QueueAirVolumeUpdate | sharp_cocoro/devices/purifier/purifier.py:71-87 | a volume outside the six raises "Invalid air volume" and queues nothing; a listed volume is queued |
| Purifier.PowerStatus | sharp_cocoro/devices/purifier/purifier.py:6-9 | the value is the member held by the first power single status, and every member held there is what it reads |
| Purifier.OperationMode | sharp_cocoro/devices/purifier/purifier.py:11-14 | the value is the member held by the first operation-mode single status, and every member held there is what it reads |
| Purifier.AirVolume | sharp_cocoro/devices/purifier/purifier.py:16-19 | the value is the member held by the first air-volume single status, and every member held there is what it reads |
| Purifier.Humidity | sharp_cocoro/devices/purifier/purifier.py:21-24 | `int()` of the code held by the first humidity range status, and succeeds only when there is one |
| Purifier.Pm25 | sharp_cocoro/devices/purifier/purifier.py:31-34 | `int()` of the code held by the first PM2.5 range status, and succeeds only when there is one |
| Purifier.FilterLife | sharp_cocoro/devices/purifier/purifier.py:36-39 | `int()` of the code held by the first filter-life range status, and succeeds only when there is one |
| Cocoro.ControlRequest | sharp_cocoro/cocoro.py:108-117 | the request body has the single key controlList |
| Cocoro.RequestCarriesQueue | sharp_cocoro/cocoro.py:106-117 | the body holds one entry for the device whose status list is the queue's records in order, with distinct codes |
| Cocoro.ErrorRows | sharp_cocoro/cocoro.py:127-131 | collecting error rows fails only with TypeError or KeyError |
| Cocoro.ErrorRowsCollect | sharp_cocoro/cocoro.py:127-131 | on well-formed rows the collected pairs are exactly the (id, errorCode) of the rows with a truthy error code |
| Cocoro.ErrorRowsConcat | sharp_cocoro/cocoro.py:127-131 | over two consecutive runs of rows the aggregation fails with the first run's error, else the second's, and otherwise yields the first run's pairs followed by the second's, so pairs come in row order |
| Cocoro.OneRow | sharp_cocoro/cocoro.py:128-130 | a single row contributes its (id, errorCode) pair exactly when its error code is truthy; None and "" contribute nothing |
| Cocoro.CheckControlList | sharp_cocoro/cocoro.py:124-134 | a rejected response fails with TypeError, KeyError or an API error naming at least one row |
| Cocoro.FalsyControlListPasses | sharp_cocoro/cocoro.py:126 | an empty or falsy control list is accepted without inspection |
| Cocoro.ControlListRejectsOnError | sharp_cocoro/cocoro.py:126-134 | well-formed rows are rejected exactly when some row has a truthy error code |
| Cocoro.ErrorMessage | sharp_cocoro/cocoro.py:134 | the error text starts with "Cocoro API Error: " |
| Cocoro.JoinPairs | sharp_cocoro/cocoro.py:134 | the joined text is empty exactly when there are no pairs |
| Cocoro.JoinConcat | sharp_cocoro/cocoro.py:134 | the joined text of two runs of pairs is the first run's text, a comma and the second run's text |
| Cocoro.TwoErrorMessage | sharp_cocoro/cocoro.py:128-134 | two failing rows read "Cocoro API Error: id1=code1,id2=code2" |
| Cocoro.ApplyOne | sharp_cocoro/cocoro.py:137-140 | the corrected inner pass (Findings row 1): one queued update rewrites exactly the entries whose code matches it |
| Cocoro.ApplyAll | sharp_cocoro/cocoro.py:136-140 | the corrected batch keeps the length of the status list |
| Cocoro.ApplyAllEffect | sharp_cocoro/cocoro.py:136-140 | after the batch every entry whose code is queued holds that update, and every other entry is unchanged |
| Cocoro.UpdatedEntryKeepsCode | sharp_cocoro/cocoro.py:136-140 | the batch never changes an entry's status code |
| Cocoro.ScanAsWritten | sharp_cocoro/cocoro.py:137-140 | one pass of the written inner loop keeps the length, fails only with AttributeError and exactly when a raw entry lies ahead, and otherwise replaces each parsed status with the update's code by the raw record |
| Cocoro.ApplyAsWritten | sharp_cocoro/cocoro.py:136-140 | the written batch keeps the length and fails only with AttributeError |
| Cocoro.FailureSticks | sharp_cocoro/cocoro.py:136-140 | once an update's pass has raised, the later updates change nothing |
| Cocoro.AsWrittenBatchOutcome | sharp_cocoro/cocoro.py:136-140 | the written batch succeeds exactly when the queue is empty, or all entries are parsed and no update but the last matches a status; then the matches of the last update hold its record, raw |
| Cocoro.BatchOfTwoFails | sharp_cocoro/cocoro.py:136-140 | two updates for two entries: the loop as written stops with AttributeError after writing one raw record; the corrected batch stores both |
| Cocoro.WrittenBatchBreaksTemperatureGetter | sharp_cocoro/cocoro.py:140 | as written, an accepted temperature batch leaves a raw record; the status lookup as written then raises AttributeError, and with the lookup corrected the getter still fails its assertion |
| Cocoro.ExecuteQueuedUpdates | sharp_cocoro/cocoro.py:105-144 | a rejected response changes nothing and reports its error; an accepted one runs the written loops: the status list becomes the written batch's result, and the call returns the response and empties the queue, or raises AttributeError with the queue kept |
| Cocoro.QueuedTemperatureReadsBack | sharp_cocoro/cocoro.py:136-142 | with the corrected batch, a queued temperature is what the temperature getter returns afterwards, int(2t)/2 |
| Cocoro.QueuedPowerReadsBack | sharp_cocoro/cocoro.py:136-142 | with the corrected batch, a queued purifier power value is what the power getter returns afterwards |
| Cocoro.FamilyFor | sharp_cocoro/cocoro.py:96-101 | AIR_CLEANER and only it builds a purifier, AIR_CON and only it an air conditioner, UNKNOWN and only it an unknown device |
| Cocoro.DispatchByTypeString | sharp_cocoro/cocoro.py:96-101 | "AIR_CLEANER" builds a purifier, "AIR_CON" an air conditioner, "UNKNOWN" an unknown device, and any other string raises ValueError |
| Cocoro.QueryDevices | sharp_cocoro/cocoro.py:71-103 | one fresh device per listing, in order, each built from its listing; otherwise the ValueError of the first listing with an unknown type |
| Cocoro.FetchDevice | sharp_cocoro/cocoro.py:146-152 | the first device with the same id, or "device does not exist" exactly when none has it |
| Cocoro.QueuePowerOn | sharp_cocoro/device.py:23-25 | power-on dispatched on the device family; an unknown device queues nothing |
| Cocoro.QueuePowerOff | sharp_cocoro/device.py:27-29 | power-off dispatched on the device family; an unknown device queues nothing |
| SrcCocoro.ExecuteQueuedUpdates | src/cocoro.py:113-154 | the same written-loop contract as the packaged client |
| SrcCocoro.QueryDevices | src/cocoro.py:74-111 | the same dispatch contract as the packaged client |

## Left out

- HTTP transport, login and sessions (`send_get_request`, `send_post_request`, `login`, `close`) are left out. Their responses are parameters. `query_devices` takes the already-fetched box listings as `Listing` values, and `execute_queued_updates` takes the decoded response.
- `async`/`await`, the debug `print` calls of `src/cocoro.py` and the "Error: not implemented" line that the unknown device's `queue_power_on`/`queue_power_off` write to stderr (`src/devices/unknown.py`) are left out. They do not affect results; for an unknown device Cocoro.QueuePowerOn and Cocoro.QueuePowerOff queue nothing.
- The `Box`/`QueryBoxesResponse`/`LabelData` construction and the name, maker, model, serial-number and box fields of a device are not modelled; a `Listing` carries the fields the dispatch reads.
- The purifier's room temperature (`float(...) / 10`) and fractional JSON numbers are left out, because the model has no floating point. The air conditioner's set point is a `real`.
- Numerals.ParseInt: does not model underscores, non-ASCII digits or Unicode whitespace in `int()`.
- `True == 1` equality between JSON booleans and integers is not modelled, nor the hash of `1.0`.
- Json.Show: renders lists and dicts as the empty string, because only strings and integers reach the error text.
- `fetch_device` of `src/cocoro.py` is not modelled separately. It calls the un-awaited `query_devices` coroutine and cannot iterate its result.
- The polling of control results (wait for completion, check results) and name/code tables are not part of this code and are not modelled.
- The `StatusCode`, `ValueSingle` and `ControlResultStatus` member values come from modules that are not part of this model. They are parameters (`AirconCodes`, `PurifierCodes`, a set of status strings).
- Aircon.State8Register, Aircon.Temperature: a state-detail code that is not a string is reported as a TypeError, because the model's `State8` holds only a string. Python's `get_state8` wraps any value in `State8(x)` without raising, and `get_temperature` then indexes whatever value it is, so a list of at least 54 digit strings decodes (54 items `"0"` read as 0.0) and a dict raises KeyError.
- State.State8.SetTemperature, Register.TemperatureHeader: the setter is computed in exact real arithmetic. Python's floating-point `t * 2` and `(t + 16) * 2` can round, so near a half-degree boundary the header differs (t = 0.49999999999999994 gives `int((t + 16) * 2)` = 33, header `21`, where the model gives 32, header `20`). An infinite or NaN temperature, which raises OverflowError or ValueError at `int()`, has no counterpart in `real`.
- Cocoro.QueuedTemperatureReadsBack, Cocoro.QueuedPowerReadsBack: these read-back properties hold for the corrected batch (each match takes the update as a parsed status), not for the loops as written, which raise or leave raw records (see Findings).
- Devices.SingleCode, Devices.RangeInt and the family getters use the corrected status lookup; as written, the lookup raises AttributeError when a raw record comes first (see Findings).
- The key order of records built by the library and the text of the `ValueError` messages are not modelled (errors carry the offending value).
- Aircon.OperationModes, Aircon.Windspeeds, Purifier.OperationModes, Purifier.AirVolumes: only the list sizes are stated, because the member strings are parameters.

## Findings

| source | as written | input that shows it | evidently intended | confidence | as-written member | corrected member |
|---|---|---|---|---|---|---|
| sharp_cocoro/cocoro.py:136-140 | the update loop reads `s.statusCode` on every status entry, including entries an earlier update of the same batch replaced with a plain dict | two statuses with codes A and B and queued updates for A and B: the second pass raises AttributeError on the dict stored for A, B is not updated and the queue is not cleared (in general, see Cocoro.AsWrittenBatchOutcome) | every status with a queued code takes its update and the queue is cleared | not executed | Cocoro.BatchOfTwoFails | Cocoro.ApplyAllEffect |
| sharp_cocoro/device.py:49-50 | `get_property_status` reads `status.statusCode` on every entry, and after a batch an entry can be a dict | a status list holding a stored update record in front of the status looked up: AttributeError | find the first entry with the code, whatever its form | not executed | Devices.LookupBehindRawEntryFails | Devices.GetPropertyStatus |
| sharp_cocoro/cocoro.py:140 | the queued dict itself is stored in `device.status`, whose declared type is a list of `PropertyStatus` | after an accepted temperature batch, `get_temperature` raises AttributeError inside `get_property_status`; with that lookup corrected it still fails its `isinstance(..., BinaryPropertyStatus)` assertion | the stored entry is the update as a property status, so the getter reads the new value | not executed | Cocoro.WrittenBatchBreaksTemperatureGetter | Cocoro.QueuedTemperatureReadsBack |
