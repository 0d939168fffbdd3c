/** The client's device-level operations with the transport taken out: the
    body of a control request, the processing of the control response
    (error aggregation, then writing the sent updates into the status list
    and clearing the queue), the construction of devices by type, and the
    selection of a device by id. */
module Cocoro {
  import opened Json
  import opened Wrappers
  import opened Properties
  import opened ResponseTypes
  import opened Devices
  import Register
  import Aircon
  import Purifier

  // ---------------------------------------------------------------- request

  /** The body posted by `execute_queued_updates`: one control entry for the
      device, whose status list is the queued records in insertion order. */
  function ControlRequest(d: Device): (body: Record)
    reads d
    ensures body.Keys == {"controlList"}
  {
    var updates := Values(d.propertyUpdates);
    map["controlList" := JArr([JObj(map[
      "deviceId" := d.deviceId,
      "echonetNode" := d.echonetNode,
      "echonetObject" := d.echonetObject,
      "status" := JArr(seq(|updates|, i requires 0 <= i < |updates| => JObj(updates[i])))])])]
  }

  /** The request carries every queued record once, in queue order, for one
      device; its status codes are pairwise distinct. */
  lemma RequestCarriesQueue(d: Device)
    requires d.Valid()
    ensures var entries := ControlRequest(d)["controlList"];
      && entries.JArr? && |entries.items| == 1 && entries.items[0].JObj?
      && var entry := entries.items[0].fields;
      && entry.Keys == {"deviceId", "echonetNode", "echonetObject", "status"}
      && entry["deviceId"] == d.deviceId
      && entry["status"].JArr?
      && var sent := entry["status"].items;
      && |sent| == |d.propertyUpdates|
      && (forall i :: 0 <= i < |sent| ==> sent[i] == JObj(d.propertyUpdates[i].record))
      && (forall i, j :: 0 <= i < j < |sent| ==>
            sent[i].fields["statusCode"] != sent[j].fields["statusCode"])
  {
  }

  // ------------------------------------------------------- error aggregation

  /** The `(id, errorCode)` pairs of the rows whose error code is truthy and
      not `""`, in row order; reading a row fails as the comprehension does. */
  function ErrorRows(rows: seq<Json>): (r: Result<seq<(Json, Json)>>)
    ensures r.Err? ==> r.error == TypeError || r.error.KeyError?
  {
    if rows == [] then Ok([])
    else
      var pairs :- ErrorRows(rows[..|rows| - 1]);
      var row := rows[|rows| - 1];
      if !row.JObj? then Err(TypeError)
      else if "errorCode" !in row.fields then Err(KeyError("errorCode"))
      else
        var code := row.fields["errorCode"];
        if Truthy(code) && code != JStr("") then
          if "id" !in row.fields then Err(KeyError("id"))
          else Ok(pairs + [(row.fields["id"], code)])
        else Ok(pairs)
  }

  /** A row is well formed when it is an object with an error code, and with
      an id when that error code reports an error. */
  predicate WellFormedRow(row: Json)
  {
    row.JObj? && "errorCode" in row.fields && (Truthy(row.fields["errorCode"]) ==> "id" in row.fields)
  }

  /** The `errorCode` and `id` of a row, `None` where absent. */
  function ErrorCodeOf(row: Json): Json
  {
    if row.JObj? && "errorCode" in row.fields then row.fields["errorCode"] else JNull
  }

  function IdOf(row: Json): Json
  {
    if row.JObj? && "id" in row.fields then row.fields["id"] else JNull
  }

  /** On well-formed rows the aggregation succeeds, is empty exactly when no
      row has a truthy error code (`None` and `""` are not errors), and holds
      exactly the pairs of the erroneous rows. */
  lemma {:induction false} ErrorRowsCollect(rows: seq<Json>)
    requires forall i :: 0 <= i < |rows| ==> WellFormedRow(rows[i])
    ensures ErrorRows(rows).Ok?
    ensures ErrorRows(rows).value == [] <==>
            forall i :: 0 <= i < |rows| ==> !Truthy(ErrorCodeOf(rows[i]))
    ensures forall i :: 0 <= i < |rows| && Truthy(ErrorCodeOf(rows[i])) ==>
              (IdOf(rows[i]), ErrorCodeOf(rows[i])) in ErrorRows(rows).value
    ensures forall p :: p in ErrorRows(rows).value ==>
              exists i :: 0 <= i < |rows| && Truthy(ErrorCodeOf(rows[i])) &&
                          p == (IdOf(rows[i]), ErrorCodeOf(rows[i]))
  {
    if rows != [] {
      var init := rows[..|rows| - 1];
      assert forall i :: 0 <= i < |init| ==> init[i] == rows[i];
      ErrorRowsCollect(init);
    }
  }

  /** The aggregation keeps row order: over two consecutive runs of rows it
      fails with the first run's error, else with the second run's, and
      otherwise yields the first run's pairs followed by the second's. */
  lemma {:induction false} ErrorRowsConcat(a: seq<Json>, b: seq<Json>)
    ensures ErrorRows(a + b) ==
            if ErrorRows(a).Err? then ErrorRows(a)
            else if ErrorRows(b).Err? then ErrorRows(b)
            else Ok(ErrorRows(a).value + ErrorRows(b).value)
    decreases |b|
  {
    if b == [] {
      assert a + b == a;
      if ErrorRows(a).Ok? {
        assert ErrorRows(a).value + [] == ErrorRows(a).value;
      }
    } else {
      var init := b[..|b| - 1];
      assert (a + b)[..|a + b| - 1] == a + init;
      assert (a + b)[|a + b| - 1] == b[|b| - 1];
      ErrorRowsConcat(a, init);
      if ErrorRows(a).Ok? && ErrorRows(init).Ok? {
        var pa := ErrorRows(a).value;
        var pi := ErrorRows(init).value;
        forall x: (Json, Json) ensures (pa + pi) + [x] == pa + (pi + [x]) {
        }
      }
    }
  }

  /** One row contributes its `(id, errorCode)` pair exactly when its error
      code is truthy. */
  lemma OneRow(row: Json)
    requires WellFormedRow(row)
    ensures ErrorRows([row]) == Ok(if Truthy(ErrorCodeOf(row)) then [(IdOf(row), ErrorCodeOf(row))] else [])
  {
    var rows := [row];
    assert rows[..|rows| - 1] == [] && rows[|rows| - 1] == row;
    assert ErrorRows(rows[..|rows| - 1]) == Ok([]);
    if Truthy(ErrorCodeOf(row)) {
      var none: seq<(Json, Json)> := [];
      assert ErrorRows(rows) == Ok(none + [(IdOf(row), ErrorCodeOf(row))]);
      assert none + [(IdOf(row), ErrorCodeOf(row))] == [(IdOf(row), ErrorCodeOf(row))];
    } else {
      assert ErrorRows(rows) == Ok([]);
    }
  }

  /** What the control response decides: the body must be exactly a
      `controlList`; a falsy list skips the check; otherwise any error row
      rejects the batch with all the error pairs. */
  function CheckControlList(body: Record): (r: Outcome)
    ensures r.Fail? ==> r.error == TypeError || r.error.KeyError? || (r.error.ApiError? && r.error.pairs != [])
  {
    match ControlListResponse(body)
    case Err(e) => Fail(e)
    case Ok(list) =>
      if !Truthy(list) then Pass
      else if !list.JArr? then Fail(TypeError)
      else
        match ErrorRows(list.items)
        case Err(e) => Fail(e)
        case Ok(pairs) => if pairs == [] then Pass else Fail(ApiError(pairs))
  }

  /** An empty or `None` control list never rejects the batch. */
  lemma FalsyControlListPasses(list: Json)
    requires !Truthy(list)
    ensures CheckControlList(map["controlList" := list]) == Pass
  {
  }

  /** A list of well-formed rows rejects the batch exactly when some row has a
      truthy error code. */
  lemma ControlListRejectsOnError(rows: seq<Json>)
    requires forall i :: 0 <= i < |rows| ==> WellFormedRow(rows[i])
    ensures CheckControlList(map["controlList" := JArr(rows)]).Fail? <==>
            exists i :: 0 <= i < |rows| && Truthy(ErrorCodeOf(rows[i]))
  {
    ErrorRowsCollect(rows);
  }

  /** `"Cocoro API Error: " + ",".join(f"{id}={errorCode}" ...)` */
  function ErrorMessage(pairs: seq<(Json, Json)>): (m: string)
    ensures |m| >= 18 && m[..18] == "Cocoro API Error: "
  {
    "Cocoro API Error: " + JoinPairs(pairs)
  }

  /** `f"{id}={errorCode}"` for one error row. */
  function PairText(pair: (Json, Json)): string
  {
    Show(pair.0) + "=" + Show(pair.1)
  }

  function JoinPairs(pairs: seq<(Json, Json)>): (r: string)
    ensures r == "" <==> pairs == []
  {
    if pairs == [] then ""
    else if |pairs| == 1 then PairText(pairs[0])
    else JoinPairs(pairs[..|pairs| - 1]) + "," + PairText(pairs[|pairs| - 1])
  }

  /** Joining one more pair appends a comma and its text. */
  lemma JoinSnoc(ps: seq<(Json, Json)>, x: (Json, Json))
    requires ps != []
    ensures JoinPairs(ps + [x]) == JoinPairs(ps) + "," + PairText(x)
  {
    assert (ps + [x])[..|ps|] == ps;
  }

  /** One step of JoinConcat: appending a pair to the second run. */
  lemma JoinConcatStep(p: seq<(Json, Json)>, init: seq<(Json, Json)>, x: (Json, Json))
    requires p != [] && init != []
    requires JoinPairs(p + init) == JoinPairs(p) + "," + JoinPairs(init)
    ensures JoinPairs(p + (init + [x])) == JoinPairs(p) + "," + JoinPairs(init + [x])
  {
    assert p + (init + [x]) == (p + init) + [x];
    JoinSnoc(p + init, x);
    JoinSnoc(init, x);
    CommaAssoc(JoinPairs(p), JoinPairs(init), PairText(x));
  }

  lemma CommaAssoc(a: string, b: string, t: string)
    ensures (a + "," + b) + "," + t == a + "," + (b + "," + t)
  {
  }

  /** Joining keeps order: the text for two runs of pairs is the text of the
      first run, a comma, and the text of the second. */
  lemma {:induction false} JoinConcat(p: seq<(Json, Json)>, q: seq<(Json, Json)>)
    requires p != [] && q != []
    ensures JoinPairs(p + q) == JoinPairs(p) + "," + JoinPairs(q)
    decreases |q|
  {
    var init, x := q[..|q| - 1], q[|q| - 1];
    assert q == init + [x];
    if |q| == 1 {
      JoinSnoc(p, x);
      assert JoinPairs([x]) == PairText(x);
    } else {
      JoinConcat(p, init);
      JoinConcatStep(p, init, x);
    }
  }

  /** The message of two errors, as `"Cocoro API Error: a=x,b=y"`. */
  lemma TwoErrorMessage(id1: string, code1: string, id2: string, code2: string)
    ensures ErrorMessage([(JStr(id1), JStr(code1)), (JStr(id2), JStr(code2))]) ==
            "Cocoro API Error: " + id1 + "=" + code1 + "," + id2 + "=" + code2
  {
    var pairs := [(JStr(id1), JStr(code1)), (JStr(id2), JStr(code2))];
    assert pairs[..1] == [(JStr(id1), JStr(code1))];
    assert JoinPairs(pairs[..1]) == id1 + "=" + code1;
    assert JoinPairs(pairs) == id1 + "=" + code1 + "," + id2 + "=" + code2;
  }

  // ------------------------------------------------------ batch application

  /** One turn of the corrected inner pass: an entry with the update's code becomes the update. */
  function UpdateEntry(e: StatusEntry, p: Pending): StatusEntry
  {
    if CodeOf(e) == Some(p.code) then ToEntry(p.record) else e
  }

  /** The corrected inner pass over the whole status list. */
  function ApplyOne(st: seq<StatusEntry>, p: Pending): (r: seq<StatusEntry>)
    ensures |r| == |st| && forall i :: 0 <= i < |st| ==> r[i] == UpdateEntry(st[i], p)
  {
    seq(|st|, i requires 0 <= i < |st| => UpdateEntry(st[i], p))
  }

  /** The corrected batch: the updates applied in queue order. */
  function ApplyAll(st: seq<StatusEntry>, ps: seq<Pending>): (r: seq<StatusEntry>)
    ensures |r| == |st|
  {
    if ps == [] then st else ApplyOne(ApplyAll(st, ps[..|ps| - 1]), ps[|ps| - 1])
  }

  /** What a batch leaves in one entry: the queued record for the entry's
      code, if there is one, and the entry itself otherwise. */
  function UpdatedEntry(e: StatusEntry, ps: seq<Pending>): StatusEntry
  {
    match CodeOf(e)
    case None => e
    case Some(code) =>
      match Lookup(ps, code)
      case None => e
      case Some(rec) => ToEntry(rec)
  }

  /** For a well-formed queue the batch keeps the length of the status list
      and replaces every entry, not just the first, whose code has an update;
      the other entries are unchanged and no entry is appended. */
  lemma {:induction false} ApplyAllEffect(st: seq<StatusEntry>, ps: seq<Pending>)
    requires WellFormed(ps)
    ensures |ApplyAll(st, ps)| == |st|
    ensures forall i :: 0 <= i < |st| ==> ApplyAll(st, ps)[i] == UpdatedEntry(st[i], ps)
  {
    if ps != [] {
      var init := ps[..|ps| - 1];
      var last := ps[|ps| - 1];
      assert ps == init + [last];
      assert forall i :: 0 <= i < |init| ==> init[i] == ps[i];
      ApplyAllEffect(st, init);
      forall i | 0 <= i < |st|
        ensures ApplyAll(st, ps)[i] == UpdatedEntry(st[i], ps)
      {
        var e := st[i];
        if CodeOf(e).Some? {
          var code := CodeOf(e).value;
          LookupSnoc(init, last, code);
          if Lookup(init, code).Some? {
            LookupCarriesCode(init, code);
            assert IndexOf(init, code).Some?;
            assert last.code != code;
          }
        }
      }
    }
  }

  /** A batch never changes the code an entry answers to. */
  lemma UpdatedEntryKeepsCode(e: StatusEntry, ps: seq<Pending>)
    requires WellFormed(ps)
    ensures CodeOf(UpdatedEntry(e, ps)) == CodeOf(e)
  {
    if CodeOf(e).Some? && Lookup(ps, CodeOf(e).value).Some? {
      LookupCarriesCode(ps, CodeOf(e).value);
    }
  }

  /** One turn of the written inner loop on an entry it gets past: a parsed
      status with the update's code becomes the queued dictionary itself. */
  function WriteRaw(e: StatusEntry, p: Pending): StatusEntry
  {
    if e.Parsed? && e.status.statusCode == p.code then Raw(p.record) else e
  }

  predicate AllParsed(st: seq<StatusEntry>)
  {
    forall k :: 0 <= k < |st| ==> st[k].Parsed?
  }

  /** The batch as written: `s.statusCode` on a raw record raises, leaving the
      entries already replaced in place. The scan from position `i` fails
      exactly when a raw entry lies ahead, and otherwise rewrites every parsed
      status with the update's code. */
  function ScanAsWritten(st: seq<StatusEntry>, p: Pending, i: nat): (r: (seq<StatusEntry>, Option<Error>))
    requires i <= |st|
    ensures |r.0| == |st| && (r.1.None? || r.1 == Some(AttributeError))
    ensures r.1.None? <==> forall k :: i <= k < |st| ==> st[k].Parsed?
    ensures forall k :: 0 <= k < i ==> r.0[k] == st[k]
    ensures r.1.None? ==> forall k :: i <= k < |st| ==> r.0[k] == WriteRaw(st[k], p)
    decreases |st| - i
  {
    if i == |st| then (st, None)
    else
      match st[i]
      case Raw(_) => (st, Some(AttributeError))
      case Parsed(s) =>
        if s.statusCode == p.code then
          var st' := st[i := Raw(p.record)];
          assert forall k :: i < k < |st| ==> st'[k] == st[k];
          ScanAsWritten(st', p, i + 1)
        else ScanAsWritten(st, p, i + 1)
  }

  /** The written outer loop: the first failing scan ends the batch. */
  function ApplyAsWritten(st: seq<StatusEntry>, ps: seq<Pending>): (r: (seq<StatusEntry>, Option<Error>))
    ensures |r.0| == |st| && (r.1.None? || r.1 == Some(AttributeError))
  {
    if ps == [] then (st, None)
    else
      var (done, failure) := ApplyAsWritten(st, ps[..|ps| - 1]);
      if failure.Some? then (done, failure) else ScanAsWritten(done, ps[|ps| - 1], 0)
  }

  /** Once an update has failed, the updates after it are never looked at. */
  lemma {:induction false} FailureSticks(st: seq<StatusEntry>, ps: seq<Pending>, k: nat)
    requires k <= |ps| && ApplyAsWritten(st, ps[..k]).1.Some?
    ensures ApplyAsWritten(st, ps) == ApplyAsWritten(st, ps[..k])
    decreases |ps| - k
  {
    if k < |ps| {
      var init := ps[..|ps| - 1];
      assert init[..k] == ps[..k];
      FailureSticks(st, init, k);
    } else {
      assert ps[..k] == ps;
    }
  }

  /** What the written batch does, for any status list and queue: it
      succeeds exactly when the queue is empty, or every entry is parsed and
      no update but the last matches a status (each match turns its entry
      into a raw record, on which the next update's scan fails); on success
      the entries matching the last update hold its record, raw. */
  lemma {:induction false} AsWrittenBatchOutcome(st: seq<StatusEntry>, ps: seq<Pending>)
    ensures ApplyAsWritten(st, ps).1.None? <==>
            ps == [] || (AllParsed(st) && forall j :: 0 <= j < |ps| - 1 ==> NoParsedMatch(st, ps[j].code))
    ensures ps != [] && ApplyAsWritten(st, ps).1.None? ==>
              forall k :: 0 <= k < |st| ==> ApplyAsWritten(st, ps).0[k] == WriteRaw(st[k], ps[|ps| - 1])
    decreases |ps|
  {
    if ps != [] {
      var init := ps[..|ps| - 1];
      var last := ps[|ps| - 1];
      assert forall j :: 0 <= j < |init| ==> init[j] == ps[j];
      AsWrittenBatchOutcome(st, init);
      var prior := ApplyAsWritten(st, init);
      if init == [] {
        assert prior == (st, None);
      } else if prior.1.None? {
        var done := prior.0;
        var prev := init[|init| - 1];
        assert ApplyAsWritten(st, ps) == ScanAsWritten(done, last, 0);
        assert AllParsed(done) <==> AllParsed(st) && NoParsedMatch(st, prev.code) by {
          if AllParsed(done) {
            forall k | 0 <= k < |st| ensures !(st[k].Parsed? && st[k].status.statusCode == prev.code) {
              assert done[k] == WriteRaw(st[k], prev);
            }
          }
          if AllParsed(st) && NoParsedMatch(st, prev.code) {
            forall k | 0 <= k < |st| ensures done[k].Parsed? {
              assert done[k] == WriteRaw(st[k], prev);
            }
          }
        }
        if ScanAsWritten(done, last, 0).1.None? {
          forall k | 0 <= k < |st| ensures ScanAsWritten(done, last, 0).0[k] == WriteRaw(st[k], last) {
            assert done[k] == WriteRaw(st[k], prev) == st[k];
          }
        }
      }
    }
  }

  /** Two queued updates for two parsed entries: the written loop replaces
      the first entry with a raw record, then fails on it while looking for
      the second code, with the queue not yet cleared; the corrected batch
      replaces both. */
  lemma BatchOfTwoFails(a: PropertyStatus, b: PropertyStatus, ra: Record, rb: Record)
    requires a.statusCode != b.statusCode
    ensures ApplyAsWritten([Parsed(a), Parsed(b)], [Pending(a.statusCode, ra), Pending(b.statusCode, rb)]) ==
            ([Raw(ra), Parsed(b)], Some(AttributeError))
    ensures "statusCode" in ra && ra["statusCode"] == a.statusCode &&
            "statusCode" in rb && rb["statusCode"] == b.statusCode && Hashable(a.statusCode) && Hashable(b.statusCode) ==>
              ApplyAll([Parsed(a), Parsed(b)], [Pending(a.statusCode, ra), Pending(b.statusCode, rb)]) ==
              [ToEntry(ra), ToEntry(rb)]
  {
    var st := [Parsed(a), Parsed(b)];
    var ps := [Pending(a.statusCode, ra), Pending(b.statusCode, rb)];
    assert ps[..1] == [Pending(a.statusCode, ra)];
    assert ps[..1][..0] == [];
    var first := ScanAsWritten(st, ps[0], 0);
    assert first == ([Raw(ra), Parsed(b)], None) by {
      assert ScanAsWritten(st, ps[0], 0) == ScanAsWritten(st[0 := Raw(ra)], ps[0], 1);
      assert ScanAsWritten(st[0 := Raw(ra)], ps[0], 1) == ScanAsWritten(st[0 := Raw(ra)], ps[0], 2);
      assert st[0 := Raw(ra)] == [Raw(ra), Parsed(b)];
    }
    assert ApplyAsWritten(st, ps[..1]) == first;
    if "statusCode" in ra && ra["statusCode"] == a.statusCode &&
       "statusCode" in rb && rb["statusCode"] == b.statusCode && Hashable(a.statusCode) && Hashable(b.statusCode) {
      ApplyAllEffect(st, ps);
      var r := ApplyAll(st, ps);
      IndexOfFirst(ps, a.statusCode, 0);
      IndexOfFirst(ps, b.statusCode, 1);
      assert r[0] == UpdatedEntry(st[0], ps) == ToEntry(ra);
      assert r[1] == UpdatedEntry(st[1], ps) == ToEntry(rb);
    }
  }

  /** The written loop stores the queued dictionary itself: after an accepted
      temperature batch the state-detail entry is raw, the written lookup
      fails on it with an attribute error, and even the corrected lookup
      leaves the temperature getter failing its `isinstance` assertion. */
  lemma WrittenBatchBreaksTemperatureGetter(c: Aircon.AirconCodes, t: real, payload: Json)
    ensures var st := [Parsed(BinaryPropertyStatus(JStr(c.stateDetail), payload))];
      var u := Aircon.TemperatureUpdate(c, t);
      && ApplyAsWritten(st, [Pending(JStr(c.stateDetail), u)]) == ([Raw(u)], None)
      && GetPropertyStatusAsWritten([Raw(u)], JStr(c.stateDetail)) == Err(AttributeError)
      && Aircon.Temperature([Raw(u)], c) == Err(AssertionError)
  {
    var st := [Parsed(BinaryPropertyStatus(JStr(c.stateDetail), payload))];
    var u := Aircon.TemperatureUpdate(c, t);
    var ps := [Pending(JStr(c.stateDetail), u)];
    assert ps[..0] == [];
    assert ScanAsWritten(st, ps[0], 0) == ScanAsWritten(st[0 := Raw(u)], ps[0], 1);
    assert st[0 := Raw(u)] == [Raw(u)];
    assert FindStatus([Raw(u)], JStr(c.stateDetail)) == Some(0);
  }

  /** `execute_queued_updates(device)`, from the moment the transport handed
      back `response`: on a rejected batch nothing moves. Otherwise the
      written loops run: each update's scan stores the queued dictionary
      itself in every parsed status with its code, and `s.statusCode` on a
      raw entry raises, with the entries already replaced left in place and
      the queue kept; only a batch that gets through clears the queue. */
  method ExecuteQueuedUpdates(d: Device, response: Record) returns (r: Result<Record>)
    requires d.Valid()
    modifies d
    ensures d.Valid()
    ensures CheckControlList(response).Fail? ==>
              && r == Err(CheckControlList(response).error)
              && d.status == old(d.status)
              && d.propertyUpdates == old(d.propertyUpdates)
    ensures CheckControlList(response).Pass? ==>
              && d.status == ApplyAsWritten(old(d.status), old(d.propertyUpdates)).0
              && (ApplyAsWritten(old(d.status), old(d.propertyUpdates)).1.Some? ==>
                    r == Err(AttributeError) && d.propertyUpdates == old(d.propertyUpdates))
              && (ApplyAsWritten(old(d.status), old(d.propertyUpdates)).1.None? ==>
                    r == Ok(response) && d.propertyUpdates == [])
  {
    var updateMap := d.propertyUpdates;
    var check := CheckControlList(response);
    if check.Fail? {
      return Err(check.error);
    }
    var k := 0;
    while k < |updateMap|
      invariant 0 <= k <= |updateMap|
      invariant d.propertyUpdates == updateMap && d.Valid()
      invariant ApplyAsWritten(old(d.status), updateMap[..k]) == (d.status, None)
    {
      var update := updateMap[k];
      ghost var before := d.status;
      assert updateMap[..k + 1][..k] == updateMap[..k];
      assert update.record["statusCode"] == update.code;
      var i := 0;
      while i < |d.status|
        invariant 0 <= i <= |d.status| == |before|
        invariant d.propertyUpdates == updateMap
        invariant ScanAsWritten(d.status, update, i) == ScanAsWritten(before, update, 0)
      {
        if d.status[i].Raw? {
          FailureSticks(old(d.status), updateMap, k + 1);
          return Err(AttributeError);
        }
        if d.status[i].status.statusCode == update.record["statusCode"] {
          d.status := d.status[i := Raw(update.record)];
        }
        i := i + 1;
      }
      k := k + 1;
    }
    assert updateMap[..k] == updateMap;
    d.propertyUpdates := [];
    r := Ok(response);
  }

  // ------------------------------------------------------------ round trips

  /** A queued temperature, once its batch is accepted, is what the getter
      reads back (truncated to a half degree), provided the device reported a
      state-detail status. */
  lemma QueuedTemperatureReadsBack(st: seq<StatusEntry>, ps: seq<Pending>, c: Aircon.AirconCodes, t: real)
    requires WellFormed(ps)
    requires Lookup(ps, JStr(c.stateDetail)) == Some(Aircon.TemperatureUpdate(c, t))
    requires GetPropertyStatus(st, JStr(c.stateDetail)).Some?
    requires 0 <= Numerals.Trunc(t * 2.0) <= 255
    ensures Aircon.Temperature(ApplyAll(st, ps), c) == Ok(Numerals.Trunc(t * 2.0) as real / 2.0)
  {
    var code := JStr(c.stateDetail);
    var st' := ApplyAll(st, ps);
    ApplyAllEffect(st, ps);
    forall i | 0 <= i < |st| ensures CodeOf(st'[i]) == CodeOf(st[i]) {
      UpdatedEntryKeepsCode(st[i], ps);
    }
    FindStatusByCodes(st, st', code);
    var i := FindStatus(st, code).value;
    var register := Register.WithTemperature(Register.Zeros(), t);
    UpdatesParseAsStatus(c.stateDetail, register);
    LookupCarriesCode(ps, code);
    assert st'[i] == Parsed(BinaryPropertyStatus(code, JObj(map["code" := JStr(register)])));
    StoredRegisterDecodes(st', c, i, register);
    Register.TemperatureRoundTrip(Register.Zeros(), t);
  }

  /** The temperature getter reads the register stored in the first
      state-detail entry. */
  lemma StoredRegisterDecodes(st: seq<StatusEntry>, c: Aircon.AirconCodes, i: nat, register: string)
    requires FindStatus(st, JStr(c.stateDetail)) == Some(i)
    requires st[i] == Parsed(BinaryPropertyStatus(JStr(c.stateDetail), JObj(map["code" := JStr(register)])))
    ensures Aircon.Temperature(st, c) == Register.DecodeTemperature(register)
  {
    assert GetPropertyStatus(st, JStr(c.stateDetail)) == Some(st[i]);
  }

  /** A queued purifier power value, once its batch is accepted, is what the
      power getter reads back, provided the device reported a power status. */
  lemma QueuedPowerReadsBack(st: seq<StatusEntry>, ps: seq<Pending>, c: Purifier.PurifierCodes, v: string)
    requires WellFormed(ps)
    requires Lookup(ps, JStr(c.power)) == Some(SingleUpdate(c.power, v))
    requires GetPropertyStatus(st, JStr(c.power)).Some?
    requires v in c.members
    ensures Purifier.PowerStatus(ApplyAll(st, ps), c) == Ok(v)
  {
    var code := JStr(c.power);
    var st' := ApplyAll(st, ps);
    ApplyAllEffect(st, ps);
    forall i | 0 <= i < |st| ensures CodeOf(st'[i]) == CodeOf(st[i]) {
      UpdatedEntryKeepsCode(st[i], ps);
    }
    FindStatusByCodes(st, st', code);
    UpdatesParseAsStatus(c.power, v);
  }

  // ------------------------------------------------------------ device types

  /** The class `query_devices` builds for a device type. */
  function FamilyFor(k: DeviceType): (f: Family)
    ensures f == PurifierFamily <==> k == AirCleaner
    ensures f == AirconFamily <==> k == AirCondition
    ensures f == UnknownFamily <==> k == Unknown
  {
    match k
    case AirCleaner => PurifierFamily
    case AirCondition => AirconFamily
    case Unknown => UnknownFamily
  }

  /** `AIR_CLEANER` builds a purifier, `AIR_CON` an air conditioner, `UNKNOWN`
      an unknown device, and any other type string fails `device_type_from_string`. */
  lemma DispatchByTypeString(j: Json)
    ensures j == JStr("AIR_CLEANER") ==> DeviceTypeFromWire(j).Ok? && FamilyFor(DeviceTypeFromWire(j).value) == PurifierFamily
    ensures j == JStr("AIR_CON") ==> DeviceTypeFromWire(j).Ok? && FamilyFor(DeviceTypeFromWire(j).value) == AirconFamily
    ensures j == JStr("UNKNOWN") ==> DeviceTypeFromWire(j).Ok? && FamilyFor(DeviceTypeFromWire(j).value) == UnknownFamily
    ensures j !in {JStr("AIR_CLEANER"), JStr("AIR_CON"), JStr("UNKNOWN")} ==> DeviceTypeFromWire(j) == Err(ValueError(j))
  {
  }

  /** What `query_devices` reads of one box: its device type, identity and
      the parsed capability and status lists. */
  datatype Listing = Listing(deviceType: Json, deviceId: Json, echonetNode: Json, echonetObject: Json,
                             properties: seq<Property>, status: seq<PropertyStatus>)

  /** A device built from a listing. */
  predicate BuiltFrom(d: Device, l: Listing)
    reads d
  {
    && DeviceTypeFromWire(l.deviceType).Ok?
    && d.kind == DeviceTypeFromWire(l.deviceType).value
    && d.family == FamilyFor(d.kind)
    && d.deviceId == l.deviceId && d.echonetNode == l.echonetNode && d.echonetObject == l.echonetObject
    && d.properties == l.properties
    && |d.status| == |l.status| && (forall i :: 0 <= i < |l.status| ==> d.status[i] == Parsed(l.status[i]))
    && d.propertyUpdates == []
  }

  /** `query_devices()`, given what it fetched for each box: one device per
      box, in order, of the class its type string selects; the first unknown
      type string fails the whole call. */
  method QueryDevices(listings: seq<Listing>) returns (r: Result<seq<Device>>)
    ensures r.Ok? <==> forall i :: 0 <= i < |listings| ==> DeviceTypeFromWire(listings[i].deviceType).Ok?
    ensures r.Err? ==>
              exists i :: 0 <= i < |listings| && r.error == ValueError(listings[i].deviceType) &&
                          DeviceTypeFromWire(listings[i].deviceType).Err? &&
                          forall j :: 0 <= j < i ==> DeviceTypeFromWire(listings[j].deviceType).Ok?
    ensures r.Ok? ==> |r.value| == |listings|
    ensures r.Ok? ==> forall i :: 0 <= i < |listings| ==> fresh(r.value[i]) && BuiltFrom(r.value[i], listings[i])
  {
    var devices: seq<Device> := [];
    var i := 0;
    while i < |listings|
      invariant 0 <= i <= |listings| && |devices| == i
      invariant forall j :: 0 <= j < i ==> DeviceTypeFromWire(listings[j].deviceType).Ok?
      invariant forall j :: 0 <= j < i ==> fresh(devices[j]) && BuiltFrom(devices[j], listings[j])
    {
      var box := listings[i];
      var deviceType := DeviceTypeFromWire(box.deviceType);
      if deviceType.Err? {
        return Err(deviceType.error);
      }
      var d := new Device(FamilyFor(deviceType.value), deviceType.value, box.deviceId, box.echonetNode,
                          box.echonetObject, box.properties, box.status);
      devices := devices + [d];
      i := i + 1;
    }
    r := Ok(devices);
  }

  /** `fetch_device(device)`, given the freshly queried devices: the first
      one with an equal device id. */
  method FetchDevice(devices: seq<Device>, device: Device) returns (r: Result<Device>)
    ensures r.Err? <==> forall i :: 0 <= i < |devices| ==> devices[i].deviceId != device.deviceId
    ensures r.Err? ==> r.error == DeviceDoesNotExist
    ensures r.Ok? ==>
              exists i :: 0 <= i < |devices| && r.value == devices[i] && devices[i].deviceId == device.deviceId &&
                          forall j :: 0 <= j < i ==> devices[j].deviceId != device.deviceId
  {
    var i := 0;
    while i < |devices|
      invariant 0 <= i <= |devices|
      invariant forall j :: 0 <= j < i ==> devices[j].deviceId != device.deviceId
    {
      if devices[i].deviceId == device.deviceId {
        return Ok(devices[i]);
      }
      i := i + 1;
    }
    r := Err(DeviceDoesNotExist);
  }

  // ------------------------------------------------------------- power

  /** `device.queue_power_on()` dispatched on the device's class; an unknown
      device only reports that it cannot, and queues nothing. */
  method QueuePowerOn(d: Device, ac: Aircon.AirconCodes, pc: Purifier.PurifierCodes) returns (r: Outcome)
    requires d.Valid()
    modifies d
    ensures d.Valid()
    ensures d.status == old(d.status)
    ensures d.family == UnknownFamily ==> r == Pass && d.propertyUpdates == old(d.propertyUpdates)
    ensures d.family != UnknownFamily ==>
              var u := if d.family == AirconFamily then SingleUpdate(ac.power, ac.powerOn) else SingleUpdate(pc.power, pc.powerOn);
              && r == Validate(d.properties, u)
              && d.propertyUpdates == if r.Pass? then Put(old(d.propertyUpdates), u["statusCode"], u) else old(d.propertyUpdates)
  {
    match d.family
    case AirconFamily => r := Aircon.QueuePowerOn(d, ac);
    case PurifierFamily => r := Purifier.QueuePowerOn(d, pc);
    case UnknownFamily => r := Pass;
  }

  /** `device.queue_power_off()` dispatched on the device's class. */
  method QueuePowerOff(d: Device, ac: Aircon.AirconCodes, pc: Purifier.PurifierCodes) returns (r: Outcome)
    requires d.Valid()
    modifies d
    ensures d.Valid()
    ensures d.status == old(d.status)
    ensures d.family == UnknownFamily ==> r == Pass && d.propertyUpdates == old(d.propertyUpdates)
    ensures d.family != UnknownFamily ==>
              var u := if d.family == AirconFamily then SingleUpdate(ac.power, ac.powerOff) else SingleUpdate(pc.power, pc.powerOff);
              && r == Validate(d.properties, u)
              && d.propertyUpdates == if r.Pass? then Put(old(d.propertyUpdates), u["statusCode"], u) else old(d.propertyUpdates)
  {
    match d.family
    case AirconFamily => r := Aircon.QueuePowerOff(d, ac);
    case PurifierFamily => r := Purifier.QueuePowerOff(d, pc);
    case UnknownFamily => r := Pass;
  }
}
