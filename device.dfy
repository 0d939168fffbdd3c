/** A device: its capability list, its current status list and the queue of
    pending status updates, keyed by status code. */
module Devices {
  import opened Json
  import opened Wrappers
  import opened Numerals
  import opened Properties
  import opened ResponseTypes

  /** The concrete class a device is built as. */
  datatype Family = AirconFamily | PurifierFamily | UnknownFamily

  /** An entry of `device.status`: a parsed status as the device is built
      with, or a raw update record as a successful batch writes it in. */
  datatype StatusEntry = Parsed(status: PropertyStatus) | Raw(record: Record)

  /** The status code of an entry, read from the attribute of a parsed status
      or from the `"statusCode"` key of a raw record. */
  function CodeOf(e: StatusEntry): (r: Option<Json>)
    ensures e.Parsed? ==> r == Some(e.status.statusCode)
    ensures e.Raw? ==> (r.Some? <==> "statusCode" in e.record)
    ensures e.Raw? && r.Some? ==> r.value == e.record["statusCode"]
  {
    match e
    case Parsed(s) => Some(s.statusCode)
    case Raw(m) => if "statusCode" in m then Some(m["statusCode"]) else None
  }

  /** An update record stored as a status entry in the form the status list
      is declared with: parsed when it is a valid status record, raw otherwise. */
  function ToEntry(rec: Record): (e: StatusEntry)
    ensures "statusCode" in rec ==> CodeOf(e) == Some(rec["statusCode"])
    ensures ParseStatusRecord(JObj(rec)).Ok? ==> e == Parsed(ParseStatusRecord(JObj(rec)).value)
  {
    match ParseStatusRecord(JObj(rec))
    case Ok(s) => Parsed(s)
    case Err(_) => Raw(rec)
  }

  // ---------------------------------------------------------------- lookups

  /** The index of the first property with the given status code. */
  function FindProperty(ps: seq<Property>, code: Json): (r: Option<nat>)
    ensures r.None? <==> forall i :: 0 <= i < |ps| ==> ps[i].statusCode != code
    ensures r.Some? ==> r.value < |ps| && ps[r.value].statusCode == code &&
                        forall j :: 0 <= j < r.value ==> ps[j].statusCode != code
    decreases |ps|
  {
    if ps == [] then None
    else if ps[0].statusCode == code then Some(0)
    else
      match FindProperty(ps[1..], code)
      case None => None
      case Some(i) => Some(i + 1)
  }

  /** `get_property(status_code)`: the first property with that code, or None. */
  function GetProperty(ps: seq<Property>, code: Json): (r: Option<Property>)
    ensures r.None? <==> forall i :: 0 <= i < |ps| ==> ps[i].statusCode != code
    ensures r.Some? ==> exists i :: 0 <= i < |ps| && ps[i] == r.value && ps[i].statusCode == code &&
                                    forall j :: 0 <= j < i ==> ps[j].statusCode != code
  {
    match FindProperty(ps, code)
    case None => None
    case Some(i) => Some(ps[i])
  }

  /** The index of the first status entry with the given status code. */
  function FindStatus(st: seq<StatusEntry>, code: Json): (r: Option<nat>)
    ensures r.None? <==> forall i :: 0 <= i < |st| ==> CodeOf(st[i]) != Some(code)
    ensures r.Some? ==> r.value < |st| && CodeOf(st[r.value]) == Some(code) &&
                        forall j :: 0 <= j < r.value ==> CodeOf(st[j]) != Some(code)
    decreases |st|
  {
    if st == [] then None
    else if CodeOf(st[0]) == Some(code) then Some(0)
    else
      match FindStatus(st[1..], code)
      case None => None
      case Some(i) => Some(i + 1)
  }

  /** `get_property_status(status_code)`, reading the code of either form of
      entry: the first entry with that code, or None. */
  function GetPropertyStatus(st: seq<StatusEntry>, code: Json): (r: Option<StatusEntry>)
    ensures r.None? <==> forall i :: 0 <= i < |st| ==> CodeOf(st[i]) != Some(code)
    ensures r.Some? ==> exists i :: 0 <= i < |st| && st[i] == r.value && CodeOf(st[i]) == Some(code) &&
                                    forall j :: 0 <= j < i ==> CodeOf(st[j]) != Some(code)
  {
    match FindStatus(st, code)
    case None => None
    case Some(i) => Some(st[i])
  }

  /** No parsed status answers to `code`. */
  predicate NoParsedMatch(st: seq<StatusEntry>, code: Json)
  {
    forall k :: 0 <= k < |st| ==> !(st[k].Parsed? && st[k].status.statusCode == code)
  }

  /** `get_property_status` as written: `status.statusCode` on each entry in
      turn, which fails on a raw record reached before a match; when it gets
      through, it finds what the corrected lookup finds. */
  function GetPropertyStatusAsWritten(st: seq<StatusEntry>, code: Json): (r: Result<Option<StatusEntry>>)
    ensures r.Err? ==> r.error == AttributeError
    ensures r.Ok? ==> r.value == GetPropertyStatus(st, code)
    ensures r.Err? <==> exists i :: 0 <= i < |st| && st[i].Raw? && NoParsedMatch(st[..i], code)
    decreases |st|
  {
    if st == [] then Ok(None)
    else
      match st[0]
      case Raw(_) => Err(AttributeError)
      case Parsed(s) =>
        if s.statusCode == code then Ok(Some(st[0]))
        else
          RawAheadShifts(st, code);
          GetPropertyStatusAsWritten(st[1..], code)
  }

  /** Past a parsed status with another code, a raw entry reached before any
      match is one reached before any match in the rest of the list. */
  lemma RawAheadShifts(st: seq<StatusEntry>, code: Json)
    requires st != [] && st[0].Parsed? && st[0].status.statusCode != code
    ensures (exists i :: 0 <= i < |st| && st[i].Raw? && NoParsedMatch(st[..i], code)) <==>
            (exists i :: 0 <= i < |st[1..]| && st[1..][i].Raw? && NoParsedMatch(st[1..][..i], code))
  {
    forall i | 0 <= i < |st| - 1
      ensures NoParsedMatch(st[..i + 1], code) <==> NoParsedMatch(st[1..][..i], code)
    {
      assert forall k :: 0 <= k < i ==> st[1..][..i][k] == st[..i + 1][k + 1];
    }
    if i :| 0 <= i < |st| && st[i].Raw? && NoParsedMatch(st[..i], code) {
      assert i > 0 && st[1..][i - 1].Raw?;
    }
    if i :| 0 <= i < |st[1..]| && st[1..][i].Raw? && NoParsedMatch(st[1..][..i], code) {
      assert st[i + 1].Raw?;
    }
  }

  /** On a status list of parsed entries only, as the device is built, the
      written lookup and the corrected one agree. */
  lemma {:induction false} LookupAgreesOnParsedStatus(st: seq<StatusEntry>, code: Json)
    requires forall i :: 0 <= i < |st| ==> st[i].Parsed?
    ensures GetPropertyStatusAsWritten(st, code) == Ok(GetPropertyStatus(st, code))
    decreases |st|
  {
    if st != [] && st[0].status.statusCode != code {
      LookupAgreesOnParsedStatus(st[1..], code);
      assert FindStatus(st, code) == match FindStatus(st[1..], code)
                                     case None => None
                                     case Some(i) => Some(i + 1);
    }
  }

  /** After a batch has written a raw record in front of a parsed status, the
      written lookup fails where the corrected one finds the status. */
  lemma LookupBehindRawEntryFails(rec: Record, s: PropertyStatus)
    requires "statusCode" in rec && rec["statusCode"] != s.statusCode
    ensures GetPropertyStatusAsWritten([Raw(rec), Parsed(s)], s.statusCode) == Err(AttributeError)
    ensures GetPropertyStatus([Raw(rec), Parsed(s)], s.statusCode) == Some(Parsed(s))
  {
    assert FindStatus([Raw(rec), Parsed(s)][1..], s.statusCode) == Some(0);
  }

  /** Entry lists with the same codes, position by position, have the same first match. */
  lemma {:induction false} FindStatusByCodes(st: seq<StatusEntry>, st': seq<StatusEntry>, code: Json)
    requires |st| == |st'| && forall i :: 0 <= i < |st| ==> CodeOf(st[i]) == CodeOf(st'[i])
    ensures FindStatus(st, code) == FindStatus(st', code)
    decreases |st|
  {
    if st != [] && CodeOf(st[0]) != Some(code) {
      FindStatusByCodes(st[1..], st'[1..], code);
    }
  }

  // ---------------------------------------------------------- pending queue

  /** A queued update: the record, under the status code it was stored with. */
  datatype Pending = Pending(code: Json, record: Record)

  /** The position of a code in the queue. */
  function IndexOf(ps: seq<Pending>, code: Json): (r: Option<nat>)
    ensures r.None? <==> forall i :: 0 <= i < |ps| ==> ps[i].code != code
    ensures r.Some? ==> r.value < |ps| && ps[r.value].code == code &&
                        forall j :: 0 <= j < r.value ==> ps[j].code != code
    decreases |ps|
  {
    if ps == [] then None
    else if ps[0].code == code then Some(0)
    else
      match IndexOf(ps[1..], code)
      case None => None
      case Some(i) => Some(i + 1)
  }

  /** `property_updates.get(code)` */
  function Lookup(ps: seq<Pending>, code: Json): (r: Option<Record>)
    ensures r.None? <==> forall i :: 0 <= i < |ps| ==> ps[i].code != code
    ensures r.Some? ==> exists i :: 0 <= i < |ps| && ps[i] == Pending(code, r.value) &&
                                    forall j :: 0 <= j < i ==> ps[j].code != code
  {
    match IndexOf(ps, code)
    case None => None
    case Some(i) => Some(ps[i].record)
  }

  /** `property_updates[code] = rec`: an existing key keeps its place and takes
      the new record; a new key goes last. */
  function Put(ps: seq<Pending>, code: Json, rec: Record): (r: seq<Pending>)
    ensures Lookup(ps, code).Some? ==> |r| == |ps|
    ensures Lookup(ps, code).None? ==> r == ps + [Pending(code, rec)]
    ensures forall i :: 0 <= i < |ps| && ps[i].code != code ==> r[i] == ps[i]
    ensures Pending(code, rec) in r
  {
    match IndexOf(ps, code)
    case Some(i) =>
      assert ps[i := Pending(code, rec)][i] == Pending(code, rec);
      ps[i := Pending(code, rec)]
    case None => ps + [Pending(code, rec)]
  }

  /** `list(property_updates.values())`, in insertion order. */
  function Values(ps: seq<Pending>): (r: seq<Record>)
    ensures |r| == |ps| && forall i :: 0 <= i < |ps| ==> r[i] == ps[i].record
  {
    seq(|ps|, i requires 0 <= i < |ps| => ps[i].record)
  }

  /** The queue as a dictionary holds it: hashable codes, each at most once,
      each the `"statusCode"` of its record. */
  predicate WellFormed(ps: seq<Pending>)
  {
    && (forall i, j :: 0 <= i < j < |ps| ==> ps[i].code != ps[j].code)
    && (forall i :: 0 <= i < |ps| ==> Hashable(ps[i].code))
    && (forall i :: 0 <= i < |ps| ==> "statusCode" in ps[i].record && ps[i].record["statusCode"] == ps[i].code)
  }

  /** In a well-formed queue, a code's record is the one of the entry holding it. */
  lemma LookupUnique(ps: seq<Pending>, i: nat)
    requires WellFormed(ps) && i < |ps|
    ensures Lookup(ps, ps[i].code) == Some(ps[i].record)
  {
  }

  /** The first position holding a code is its index. */
  lemma IndexOfFirst(ps: seq<Pending>, code: Json, k: nat)
    requires k < |ps| && ps[k].code == code && forall j :: 0 <= j < k ==> ps[j].code != code
    ensures IndexOf(ps, code) == Some(k)
  {
  }

  /** `Put` leaves the stored code at its old position, or last when it is new. */
  lemma IndexOfPutSame(ps: seq<Pending>, code: Json, rec: Record)
    ensures IndexOf(Put(ps, code, rec), code) ==
            Some(if IndexOf(ps, code).Some? then IndexOf(ps, code).value else |ps|)
  {
    var qs := Put(ps, code, rec);
    var k := if IndexOf(ps, code).Some? then IndexOf(ps, code).value else |ps|;
    assert forall j :: 0 <= j < k ==> qs[j].code == ps[j].code;
    IndexOfFirst(qs, code, k);
  }

  /** `Put` leaves every other code where it was. */
  lemma IndexOfPutOther(ps: seq<Pending>, code: Json, rec: Record, other: Json)
    requires other != code
    ensures IndexOf(Put(ps, code, rec), other) == IndexOf(ps, other)
  {
    var qs := Put(ps, code, rec);
    assert forall j :: 0 <= j < |ps| ==> qs[j].code == ps[j].code;
    if IndexOf(ps, other).Some? {
      IndexOfFirst(qs, other, IndexOf(ps, other).value);
    } else {
      assert forall j :: 0 <= j < |qs| ==> qs[j].code != other;
    }
  }

  /** After `Put`, the stored code reads back the new record and every other code reads as before. */
  lemma PutLookup(ps: seq<Pending>, code: Json, rec: Record, other: Json)
    ensures Lookup(Put(ps, code, rec), code) == Some(rec)
    ensures other != code ==> Lookup(Put(ps, code, rec), other) == Lookup(ps, other)
  {
    IndexOfPutSame(ps, code, rec);
    if other != code {
      IndexOfPutOther(ps, code, rec, other);
    }
  }

  /** Looking a code up in a queue extended by one entry. */
  lemma LookupSnoc(init: seq<Pending>, last: Pending, code: Json)
    ensures Lookup(init + [last], code) ==
            if Lookup(init, code).Some? then Lookup(init, code)
            else if last.code == code then Some(last.record)
            else None
  {
    var ps := init + [last];
    if IndexOf(init, code).Some? {
      IndexOfFirst(ps, code, IndexOf(init, code).value);
    } else if last.code == code {
      IndexOfFirst(ps, code, |init|);
    } else {
      assert forall j :: 0 <= j < |ps| ==> ps[j].code != code;
    }
  }

  /** In a well-formed queue, the record found under a code carries that code. */
  lemma LookupCarriesCode(ps: seq<Pending>, code: Json)
    requires WellFormed(ps) && Lookup(ps, code).Some?
    ensures "statusCode" in Lookup(ps, code).value && Lookup(ps, code).value["statusCode"] == code
  {
  }

  /** `Put` keeps every queued code at its position, and appends only a new code. */
  lemma PutKeepsOrder(ps: seq<Pending>, code: Json, rec: Record)
    ensures IndexOf(ps, code).Some? ==> |Put(ps, code, rec)| == |ps|
    ensures IndexOf(ps, code).None? ==> |Put(ps, code, rec)| == |ps| + 1 && Put(ps, code, rec)[|ps|] == Pending(code, rec)
    ensures forall i :: 0 <= i < |ps| ==> Put(ps, code, rec)[i].code == ps[i].code
    ensures forall i :: 0 <= i < |ps| && ps[i].code != code ==> Put(ps, code, rec)[i] == ps[i]
  {
  }

  /** Last write wins: a second `Put` under the same code replaces the first. */
  lemma PutTwice(ps: seq<Pending>, code: Json, rec1: Record, rec2: Record)
    ensures Put(Put(ps, code, rec1), code, rec2) == Put(ps, code, rec2)
  {
    IndexOfPutSame(ps, code, rec1);
  }

  /** Storing a record under its own hashable status code keeps the queue well formed. */
  lemma PutWellFormed(ps: seq<Pending>, rec: Record)
    requires WellFormed(ps) && "statusCode" in rec && Hashable(rec["statusCode"])
    ensures WellFormed(Put(ps, rec["statusCode"], rec))
  {
  }

  // ------------------------------------------------------------- validation

  /** What `queue_property_status_update(u)` does with the device's
      properties: the first property with the update's code decides; it must
      be settable, and the code must be usable as a dictionary key. */
  function Validate(ps: seq<Property>, u: Record): (r: Outcome)
    ensures r == Fail(KeyError("statusCode")) <==> "statusCode" !in u
    ensures r.Pass? <==> "statusCode" in u && Hashable(u["statusCode"]) &&
                         GetProperty(ps, u["statusCode"]).Some? && Truthy(GetProperty(ps, u["statusCode"]).value.canSet)
    ensures "statusCode" in u && GetProperty(ps, u["statusCode"]).None? ==> r == Fail(DoesNotExist(u["statusCode"]))
  {
    if "statusCode" !in u then Fail(KeyError("statusCode"))
    else
      var code := u["statusCode"];
      match FindProperty(ps, code)
      case None => Fail(DoesNotExist(code))
      case Some(i) =>
        if !Truthy(ps[i].canSet) then Fail(NotSettable(ps[i].statusName))
        else if !Hashable(code) then Fail(TypeError)
        else Pass
  }

  /** Only the first property with the update's code decides the outcome:
      anything after it, matching or not, is never read. */
  lemma {:induction false} FirstMatchDecides(ps: seq<Property>, qs: seq<Property>, u: Record)
    requires "statusCode" in u && FindProperty(ps, u["statusCode"]).Some?
    ensures Validate(ps + qs, u) == Validate(ps, u)
  {
    FindPropertyPrefix(ps, qs, u["statusCode"]);
  }

  lemma {:induction false} FindPropertyPrefix(ps: seq<Property>, qs: seq<Property>, code: Json)
    requires FindProperty(ps, code).Some?
    ensures FindProperty(ps + qs, code) == FindProperty(ps, code)
    decreases |ps|
  {
    if ps[0].statusCode != code {
      assert (ps + qs)[1..] == ps[1..] + qs;
      FindPropertyPrefix(ps[1..], qs, code);
    }
  }

  /** The outcome is decided by the first matching property alone: an unknown
      code fails "does not exist", an unsettable match "not settable", and a
      settable match with a hashable code succeeds. */
  lemma ValidationCases(ps: seq<Property>, u: Record, i: nat)
    requires "statusCode" in u && i < |ps| && ps[i].statusCode == u["statusCode"]
    requires forall j :: 0 <= j < i ==> ps[j].statusCode != u["statusCode"]
    ensures !Truthy(ps[i].canSet) ==> Validate(ps, u) == Fail(NotSettable(ps[i].statusName))
    ensures Truthy(ps[i].canSet) && Hashable(u["statusCode"]) ==> Validate(ps, u) == Pass
  {
  }

  /** A code no property carries fails "does not exist". */
  lemma UnknownCodeFails(ps: seq<Property>, u: Record)
    requires "statusCode" in u && forall i :: 0 <= i < |ps| ==> ps[i].statusCode != u["statusCode"]
    ensures Validate(ps, u) == Fail(DoesNotExist(u["statusCode"]))
  {
  }

  /** Validation never compares the update's `valueType` (or any key other
      than `"statusCode"`) with the property. */
  lemma ValidationReadsOnlyTheCode(ps: seq<Property>, u: Record, key: string, v: Json)
    requires key != "statusCode"
    ensures Validate(ps, u[key := v]) == Validate(ps, u)
  {
    assert ("statusCode" in u[key := v]) == ("statusCode" in u);
  }

  // --------------------------------------------------------------- devices

  /** A device as `query_devices` builds it. Identity, capabilities and the
      family never change after construction; the status list and the queue
      of pending updates do. */
  class Device {
    const family: Family
    const kind: DeviceType
    const deviceId: Json
    const echonetNode: Json
    const echonetObject: Json
    const properties: seq<Property>
    var status: seq<StatusEntry>
    var propertyUpdates: seq<Pending>

    predicate Valid()
      reads this
    {
      WellFormed(propertyUpdates)
    }

    /** `Device.__init__`: the queue starts empty. */
    constructor (family: Family, kind: DeviceType, deviceId: Json, echonetNode: Json, echonetObject: Json,
                 properties: seq<Property>, status: seq<PropertyStatus>)
      ensures this.family == family && this.kind == kind && this.deviceId == deviceId
      ensures this.echonetNode == echonetNode && this.echonetObject == echonetObject
      ensures this.properties == properties
      ensures |this.status| == |status| && forall i :: 0 <= i < |status| ==> this.status[i] == Parsed(status[i])
      ensures propertyUpdates == []
      ensures Valid()
    {
      this.family := family;
      this.kind := kind;
      this.deviceId := deviceId;
      this.echonetNode := echonetNode;
      this.echonetObject := echonetObject;
      this.properties := properties;
      this.status := seq(|status|, i requires 0 <= i < |status| => Parsed(status[i]));
      propertyUpdates := [];
    }

    /** `queue_property_status_update(u)`: walk the properties; skip those
        with another code; the first with the update's code must be settable,
        and then the update is stored under its code. */
    method QueuePropertyStatusUpdate(u: Record) returns (r: Outcome)
      requires Valid()
      modifies this
      ensures Valid()
      ensures r == Validate(properties, u)
      ensures status == old(status)
      ensures propertyUpdates == if r.Pass? then Put(old(propertyUpdates), u["statusCode"], u) else old(propertyUpdates)
    {
      if "statusCode" !in u {
        return Fail(KeyError("statusCode"));
      }
      var code := u["statusCode"];
      var i := 0;
      while i < |properties|
        invariant 0 <= i <= |properties|
        invariant forall j :: 0 <= j < i ==> properties[j].statusCode != code
      {
        if properties[i].statusCode != code {
          i := i + 1;
          continue;
        }
        if !Truthy(properties[i].canSet) {
          return Fail(NotSettable(properties[i].statusName));
        }
        if !Hashable(code) {
          return Fail(TypeError);
        }
        PutWellFormed(propertyUpdates, u);
        propertyUpdates := Put(propertyUpdates, code, u);
        return Pass;
      }
      return Fail(DoesNotExist(code));
    }
  }

  // --------------------------------------------------------------- getters

  /** `d[key]` on a JSON payload: a dictionary without the key is a key
      error, anything else that is not a dictionary a type error. */
  function Subscript(j: Json, key: string): (r: Result<Json>)
    ensures r.Ok? <==> j.JObj? && key in j.fields
    ensures r.Ok? ==> r.value == j.fields[key]
    ensures j.JObj? && key !in j.fields ==> r == Err(KeyError(key))
    ensures !j.JObj? ==> r == Err(TypeError)
  {
    match j
    case JObj(m) => if key in m then Ok(m[key]) else Err(KeyError(key))
    case _ => Err(TypeError)
  }

  /** A member of a string enumeration given by the set of its values:
      `ValueSingle(code)`. */
  function EnumMember(j: Json, members: set<string>): (r: Result<string>)
    ensures r.Ok? <==> j.JStr? && j.s in members
    ensures r.Ok? ==> r.value == j.s
    ensures r.Err? ==> r.error == ValueError(j)
  {
    if j.JStr? && j.s in members then Ok(j.s) else Err(ValueError(j))
  }

  /** The first status with `code` is a parsed single status whose payload
      holds `v` under `"code"`. */
  predicate HoldsSingle(st: seq<StatusEntry>, code: string, v: string)
  {
    match FindStatus(st, JStr(code))
    case None => false
    case Some(i) =>
      st[i].Parsed? && st[i].status.SinglePropertyStatus? &&
      Subscript(st[i].status.valueSingle, "code") == Ok(JStr(v))
  }

  /** The first status with `code` is a parsed range status whose payload
      holds `x` under `"code"`. */
  predicate HoldsRange(st: seq<StatusEntry>, code: string, x: Json)
  {
    match FindStatus(st, JStr(code))
    case None => false
    case Some(i) =>
      st[i].Parsed? && st[i].status.RangePropertyStatus? &&
      Subscript(st[i].status.valueRange, "code") == Ok(x)
  }

  /** The first status with `code` is a parsed binary status whose payload
      holds `x` under `"code"`. */
  predicate HoldsBinary(st: seq<StatusEntry>, code: string, x: Json)
  {
    match FindStatus(st, JStr(code))
    case None => false
    case Some(i) =>
      st[i].Parsed? && st[i].status.BinaryPropertyStatus? &&
      Subscript(st[i].status.valueBinary, "code") == Ok(x)
  }

  /** The family getters' common shape for a single status: the status must be
      a single status, and its `code` a member of the enumeration. */
  function SingleCode(st: seq<StatusEntry>, code: string, members: set<string>): (r: Result<string>)
    ensures r.Ok? ==> HoldsSingle(st, code, r.value) && r.value in members
    ensures forall v :: HoldsSingle(st, code, v) ==> r == EnumMember(JStr(v), members)
  {
    match GetPropertyStatus(st, JStr(code))
    case Some(Parsed(SinglePropertyStatus(_, payload))) =>
      var v :- Subscript(payload, "code");
      EnumMember(v, members)
    case _ => Err(AssertionError)
  }

  /** The family getters' common shape for an integer range status: the status
      must be a range status, and `int()` of its `code` is the value. */
  function RangeInt(st: seq<StatusEntry>, code: string): (r: Result<int>)
    ensures r.Ok? ==> exists x :: HoldsRange(st, code, x) && r == PyInt(x)
    ensures forall x :: HoldsRange(st, code, x) ==> r == PyInt(x)
  {
    match GetPropertyStatus(st, JStr(code))
    case Some(Parsed(RangePropertyStatus(_, payload))) =>
      var v :- Subscript(payload, "code");
      PyInt(v)
    case _ => Err(AssertionError)
  }

  /** The single getter returns `v` exactly when the first status with its
      code is a single status holding `v` and `v` is a member; a status
      holding a non-member raises the enumeration's ValueError, and a missing
      status or one of another kind fails the getter's assertion. */
  lemma SingleCodeReads(st: seq<StatusEntry>, code: string, members: set<string>, v: string)
    ensures (GetPropertyStatus(st, JStr(code)).None? ||
             !GetPropertyStatus(st, JStr(code)).value.Parsed? ||
             !GetPropertyStatus(st, JStr(code)).value.status.SinglePropertyStatus?) ==>
            SingleCode(st, code, members) == Err(AssertionError)
    ensures SingleCode(st, code, members) == Ok(v) <==> HoldsSingle(st, code, v) && v in members
    ensures HoldsSingle(st, code, v) && v !in members ==> SingleCode(st, code, members) == Err(ValueError(JStr(v)))
  {
  }

  /** The integer getter returns `int()` of the `code` of the first status
      with its code, and fails its assertion when that status is missing or
      of another kind. */
  lemma RangeIntReads(st: seq<StatusEntry>, code: string, payload: map<string, Json>, n: nat, i: int)
    ensures (GetPropertyStatus(st, JStr(code)).None? ||
             !GetPropertyStatus(st, JStr(code)).value.Parsed? ||
             !GetPropertyStatus(st, JStr(code)).value.status.RangePropertyStatus?) ==>
            RangeInt(st, code) == Err(AssertionError)
    ensures GetPropertyStatus(st, JStr(code)) == Some(Parsed(RangePropertyStatus(JStr(code), JObj(payload)))) ==>
              && ("code" in payload && payload["code"] == JStr(NatToString(n)) ==> RangeInt(st, code) == Ok(n))
              && ("code" in payload && payload["code"] == JInt(i) ==> RangeInt(st, code) == Ok(i))
              && ("code" !in payload ==> RangeInt(st, code) == Err(KeyError("code")))
  {
    DecimalRoundTrip(n);
  }

  /** Records as the family wrappers build them: a single-valued update and a
      binary update, each `{"code": value}` under the kind's payload key. */
  function SingleUpdate(code: string, value: string): (u: Record)
    ensures u.Keys == {"statusCode", "valueType", "valueSingle"}
    ensures u["statusCode"] == JStr(code) && u["valueType"] == JStr(Single.Wire())
    ensures u["valueSingle"] == JObj(map["code" := JStr(value)])
  {
    map["statusCode" := JStr(code), "valueType" := JStr(Single.Wire()),
        "valueSingle" := JObj(map["code" := JStr(value)])]
  }

  function BinaryUpdate(code: string, value: string): (u: Record)
    ensures u.Keys == {"statusCode", "valueType", "valueBinary"}
    ensures u["statusCode"] == JStr(code) && u["valueType"] == JStr(Binary.Wire())
    ensures u["valueBinary"] == JObj(map["code" := JStr(value)])
  {
    map["statusCode" := JStr(code), "valueType" := JStr(Binary.Wire()),
        "valueBinary" := JObj(map["code" := JStr(value)])]
  }

  /** A wrapper's update record is a valid status record of its kind. */
  lemma UpdatesParseAsStatus(code: string, value: string)
    ensures ToEntry(SingleUpdate(code, value)) ==
            Parsed(SinglePropertyStatus(JStr(code), JObj(map["code" := JStr(value)])))
    ensures ToEntry(BinaryUpdate(code, value)) ==
            Parsed(BinaryPropertyStatus(JStr(code), JObj(map["code" := JStr(value)])))
  {
    var s := SingleUpdate(code, value);
    var b := BinaryUpdate(code, value);
    assert s.Keys - ValueKeys == StatusFields;
    assert b.Keys - ValueKeys == StatusFields;
    ValueTypeMembers(s["valueType"]);
  }
}
