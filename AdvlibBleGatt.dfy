/**
 * The GATT entry point of lib/advlibblegatt.js: the characteristics of a
 * protocol-specific data object are decoded one after another, their
 * records merged into one, and each processor that contributed then
 * combines the merged record.
 *
 * The BluVib decoder is a parameter `decode` of the loop and of the
 * functions that specify it, so that the loop's proof does not depend on
 * the decoder's internals; `BluVibReturnsRecords` and the lemmas at the
 * end instantiate it with `BluVib.Process`.
 */
module AdvlibBleGatt {
  import opened Js
  import Utils
  import BluVib

  /** The processors a characteristic can be handed to; the BluVib module is the only one. */
  datatype Processor = BluVibProcessor

  /** The state after some characteristics: the merged record and the processors seen, in order. */
  datatype Accumulation = Accumulation(processedData: Record, processors: seq<Processor>)

  /** A processor's `process`: a decoded value, or an exception. */
  type Decoder = Value -> Completion<Value>

  /**
   * A processor's `combine` hook: it may change the merged record or
   * throw. Its body is not part of this model, so it is a parameter.
   */
  type Combine = (Processor, Record) -> Completion<Record>

  /** A decoder whose results are objects, null or undefined, as BluVib's are. */
  ghost predicate ReturnsRecords(decode: Decoder)
  {
    forall v :: decode(v).Normal? ==> decode(v).value.Obj? || decode(v).value == Null || decode(v).value == Undefined
  }

  /** `Object.assign(target, source)` for an object source: its properties overwrite the target's. */
  function Assign(target: Record, source: Value): (r: Record)
    ensures source.Obj? ==> r.Keys == target.Keys + source.props.Keys
    ensures source.Obj? ==> forall k :: k in r ==> r[k] == if k in source.props then source.props[k] else target[k]
    ensures !source.Obj? ==> r == target
  {
    if source.Obj? then target + source.props else target
  }

  /** A characteristic handed to the BluVib decoder: GATT format and a supported service. */
  predicate IsSupportedCharacteristic(c: Value)
  {
    Utils.IsGattCharacteristicFormat(c) && Get(c, "serviceUuid").s in BluVib.SUPPORTED_SERVICE_UUIDS
  }

  /** Some characteristic of the list is handed to the BluVib decoder. */
  predicate SawSupported(gatt: seq<Value>)
  {
    exists i :: 0 <= i < |gatt| && IsSupportedCharacteristic(gatt[i])
  }

  /** A characteristic whose decoding throws. */
  predicate Throws(c: Value, decode: Decoder)
  {
    IsSupportedCharacteristic(c) && decode(c).Thrown?
  }

  /** The properties a characteristic adds to the merged record. */
  function Contribution(c: Value, decode: Decoder): Record
  {
    if IsSupportedCharacteristic(c) && decode(c).Normal? && decode(c).value.Obj? then decode(c).value.props
    else map[]
  }

  /** One pass of the `forEach` body over the characteristic list. */
  function Visit(acc: Accumulation, characteristic: Value, decode: Decoder): Completion<Accumulation>
  {
    if !Utils.IsGattCharacteristicFormat(characteristic) then Normal(acc)
    else if Get(characteristic, "serviceUuid").s !in BluVib.SUPPORTED_SERVICE_UUIDS then
      Normal(Accumulation(Assign(acc.processedData, Obj(map[])), acc.processors))
    else
      match decode(characteristic)
      case Thrown => Thrown
      case Normal(decoded) =>
        var processors := if BluVibProcessor in acc.processors then acc.processors else acc.processors + [BluVibProcessor];
        var processedData := if Truthy(decoded) then Assign(acc.processedData, decoded) else acc.processedData;
        Normal(Accumulation(processedData, processors))
  }

  /** The `forEach` over the whole list, from an empty record and no processors. */
  function VisitAll(gatt: seq<Value>, decode: Decoder): Completion<Accumulation>
  {
    if gatt == [] then Normal(Accumulation(map[], []))
    else
      match VisitAll(gatt[..|gatt| - 1], decode)
      case Thrown => Thrown
      case Normal(acc) => Visit(acc, gatt[|gatt| - 1], decode)
  }

  /** The second `forEach`: each processor's `combine`, in order, on the merged record. */
  function CombineAll(processors: seq<Processor>, processedData: Record, combine: Combine): Completion<Record>
  {
    if processors == [] then Normal(processedData)
    else
      match combine(processors[0], processedData)
      case Thrown => Thrown
      case Normal(next) => CombineAll(processors[1..], next, combine)
  }

  /** The envelope `processProtocolSpecificData` accepts: a non-Buffer object with a `gatt` array. */
  predicate IsValidEnvelope(data: Value)
  {
    Utils.IsProtocolSpecificData(data) && Get(data, "gatt").Arr?
  }

  /** What processProtocolSpecificData(data) returns, or that it throws. */
  function ProtocolSpecificDataOutcome(data: Value, decode: Decoder, combine: Combine): Completion<Value>
  {
    if !IsValidEnvelope(data) then Normal(Null)
    else
      match VisitAll(Get(data, "gatt").elems, decode)
      case Thrown => Thrown
      case Normal(acc) =>
        match CombineAll(acc.processors, acc.processedData, combine)
        case Thrown => Thrown
        case Normal(processedData) => Normal(Obj(processedData))
  }

  /** A throw while decoding a prefix of the list ends the whole `forEach`. */
  lemma {:induction false} VisitAllPrefixThrown(gatt: seq<Value>, k: nat, decode: Decoder)
    requires k <= |gatt| && VisitAll(gatt[..k], decode).Thrown?
    ensures VisitAll(gatt, decode).Thrown?
    decreases |gatt| - k
  {
    if k < |gatt| {
      var init := gatt[..|gatt| - 1];
      assert init[..k] == gatt[..k];
      VisitAllPrefixThrown(init, k, decode);
    } else {
      assert gatt[..k] == gatt;
    }
  }

  /**
   * processProtocolSpecificData(data), with `decode` standing for
   * `bluvib.process` and `combine` for each processor's hook.
   */
  method ProcessProtocolSpecificData(data: Value, decode: Decoder, combine: Combine) returns (r: Completion<Value>)
    ensures r == ProtocolSpecificDataOutcome(data, decode, combine)
    ensures !IsValidEnvelope(data) ==> r == Normal(Null)
    ensures r.Normal? ==> r.value == Null || r.value.Obj?
  {
    if !Utils.IsProtocolSpecificData(data) || !Get(data, "gatt").Arr? {
      return Normal(Null);
    }
    var gatt := Get(data, "gatt").elems;
    var processedData: Record := map[];
    var processors: seq<Processor> := [];

    var i := 0;
    while i < |gatt|
      invariant 0 <= i <= |gatt|
      invariant VisitAll(gatt[..i], decode) == Normal(Accumulation(processedData, processors))
    {
      var characteristic := gatt[i];
      assert gatt[..i + 1][..i] == gatt[..i];
      if Utils.IsGattCharacteristicFormat(characteristic) {
        var processedCharacteristicData: Value := Obj(map[]);
        if Get(characteristic, "serviceUuid").s in BluVib.SUPPORTED_SERVICE_UUIDS {
          var decoded := decode(characteristic);
          if decoded.Thrown? {
            VisitAllPrefixThrown(gatt, i + 1, decode);
            return Thrown;
          }
          processedCharacteristicData := decoded.value;
          if BluVibProcessor !in processors {
            processors := processors + [BluVibProcessor];
          }
        }
        if Truthy(processedCharacteristicData) {
          processedData := Assign(processedData, processedCharacteristicData);
        }
      }
      i := i + 1;
    }
    assert gatt[..i] == gatt;

    ghost var merged := processedData;
    var j := 0;
    while j < |processors|
      invariant 0 <= j <= |processors|
      invariant CombineAll(processors, merged, combine) == CombineAll(processors[j..], processedData, combine)
    {
      var combined := combine(processors[j], processedData);
      if combined.Thrown? {
        return Thrown;
      }
      processedData := combined.value;
      j := j + 1;
    }
    return Normal(Obj(processedData));
  }

  // ---------------------------------------------------------------------
  // Properties of the merge loop
  // ---------------------------------------------------------------------

  /** BluVib's `process` returns objects, null or undefined. */
  lemma BluVibReturnsRecords()
    ensures ReturnsRecords(BluVib.Process)
  {
    forall v | BluVib.Process(v).Normal?
      ensures BluVib.Process(v).value.Obj? || BluVib.Process(v).value == Null || BluVib.Process(v).value == Undefined
    {
    }
  }

  /** The processors list after one more characteristic. */
  function Recorded(processors: seq<Processor>, c: Value): seq<Processor>
  {
    if IsSupportedCharacteristic(c) && BluVibProcessor !in processors then processors + [BluVibProcessor] else processors
  }

  /** One step of the loop: a throw, or the record merged with the characteristic's contribution. */
  lemma VisitStep(acc: Accumulation, c: Value, decode: Decoder)
    requires ReturnsRecords(decode)
    ensures Visit(acc, c, decode) ==
      if Throws(c, decode) then Thrown
      else Normal(Accumulation(acc.processedData + Contribution(c, decode), Recorded(acc.processors, c)))
  {
    assert acc.processedData + map[] == acc.processedData;
    if IsSupportedCharacteristic(c) && decode(c).Normal? {
      assert decode(c).value.Obj? || decode(c).value == Null || decode(c).value == Undefined;
    }
  }

  /** A characteristic that is not decoded leaves the state as it was. */
  lemma SkippedCharacteristic(gatt: seq<Value>, c: Value, decode: Decoder)
    requires !IsSupportedCharacteristic(c)
    ensures VisitAll(gatt + [c], decode) == VisitAll(gatt, decode)
  {
    assert (gatt + [c])[..|gatt|] == gatt;
    if Utils.IsGattCharacteristicFormat(c) {
      forall acc: Accumulation ensures Assign(acc.processedData, Obj(map[])) == acc.processedData {
        assert acc.processedData + map[] == acc.processedData;
      }
    }
  }

  /** A null or undefined decoder result leaves the record as it was. */
  lemma NullResultKeepsRecord(gatt: seq<Value>, c: Value, decode: Decoder)
    requires IsSupportedCharacteristic(c)
    requires decode(c) == Normal(Null) || decode(c) == Normal(Undefined)
    requires VisitAll(gatt, decode).Normal?
    ensures VisitAll(gatt + [c], decode).Normal?
    ensures VisitAll(gatt + [c], decode).value.processedData == VisitAll(gatt, decode).value.processedData
  {
    assert (gatt + [c])[..|gatt|] == gatt;
  }

  /** The merged keys are those some characteristic contributed. */
  lemma {:induction false} MergedKeys(gatt: seq<Value>, decode: Decoder, k: string)
    requires ReturnsRecords(decode)
    requires VisitAll(gatt, decode).Normal?
    ensures k in VisitAll(gatt, decode).value.processedData <==>
      exists i :: 0 <= i < |gatt| && k in Contribution(gatt[i], decode)
  {
    if gatt != [] {
      var init := gatt[..|gatt| - 1];
      var last := gatt[|gatt| - 1];
      MergedKeys(init, decode, k);
      VisitStep(VisitAll(init, decode).value, last, decode);
      if k in VisitAll(gatt, decode).value.processedData && k !in Contribution(last, decode) {
        var i :| 0 <= i < |init| && k in Contribution(init[i], decode);
        assert gatt[i] == init[i];
      }
      if exists i :: 0 <= i < |gatt| && k in Contribution(gatt[i], decode) {
        var i :| 0 <= i < |gatt| && k in Contribution(gatt[i], decode);
        if i < |init| {
          assert init[i] == gatt[i];
        }
      }
    }
  }

  /** For a repeated key, the last characteristic that sets it wins. */
  lemma {:induction false} LastContributionWins(gatt: seq<Value>, decode: Decoder, i: nat, k: string)
    requires ReturnsRecords(decode)
    requires VisitAll(gatt, decode).Normal?
    requires i < |gatt| && k in Contribution(gatt[i], decode)
    requires forall j :: i < j < |gatt| ==> k !in Contribution(gatt[j], decode)
    ensures k in VisitAll(gatt, decode).value.processedData
    ensures VisitAll(gatt, decode).value.processedData[k] == Contribution(gatt[i], decode)[k]
  {
    var init := gatt[..|gatt| - 1];
    var last := gatt[|gatt| - 1];
    VisitStep(VisitAll(init, decode).value, last, decode);
    if i < |init| {
      assert init[i] == gatt[i];
      forall j | i < j < |init| ensures k !in Contribution(init[j], decode) {
        assert init[j] == gatt[j];
      }
      LastContributionWins(init, decode, i, k);
    }
  }

  /** BluVib is recorded once, and exactly when a supported characteristic was seen. */
  lemma {:induction false} ProcessorsRecorded(gatt: seq<Value>, decode: Decoder)
    requires VisitAll(gatt, decode).Normal?
    ensures VisitAll(gatt, decode).value.processors == if SawSupported(gatt) then [BluVibProcessor] else []
  {
    if gatt != [] {
      var init := gatt[..|gatt| - 1];
      var last := gatt[|gatt| - 1];
      ProcessorsRecorded(init, decode);
      if SawSupported(init) {
        var i :| 0 <= i < |init| && IsSupportedCharacteristic(init[i]);
        assert gatt[i] == init[i];
      }
      if SawSupported(gatt) && !IsSupportedCharacteristic(last) {
        var i :| 0 <= i < |gatt| && IsSupportedCharacteristic(gatt[i]);
        assert init[i] == gatt[i];
      }
      if IsSupportedCharacteristic(last) {
        assert IsSupportedCharacteristic(gatt[|gatt| - 1]);
      }
    }
  }

  /** The characteristic loop throws exactly when decoding some characteristic throws. */
  lemma {:induction false} ThrowsWhenSomeDecodingThrows(gatt: seq<Value>, decode: Decoder)
    ensures VisitAll(gatt, decode).Thrown? <==> exists i :: 0 <= i < |gatt| && Throws(gatt[i], decode)
  {
    if gatt != [] {
      var init := gatt[..|gatt| - 1];
      var last := gatt[|gatt| - 1];
      ThrowsWhenSomeDecodingThrows(init, decode);
      if exists i :: 0 <= i < |init| && Throws(init[i], decode) {
        var i :| 0 <= i < |init| && Throws(init[i], decode);
        assert gatt[i] == init[i];
      }
      if exists i :: 0 <= i < |gatt| && Throws(gatt[i], decode) {
        var i :| 0 <= i < |gatt| && Throws(gatt[i], decode);
        if i < |init| {
          assert init[i] == gatt[i];
        }
      }
    }
  }

  // ---------------------------------------------------------------------
  // Properties of processProtocolSpecificData
  // ---------------------------------------------------------------------

  /** The result is null exactly when the envelope is rejected. */
  lemma NullExactlyForInvalidEnvelope(data: Value, decode: Decoder, combine: Combine)
    ensures ProtocolSpecificDataOutcome(data, decode, combine) == Normal(Null) <==> !IsValidEnvelope(data)
  {
  }

  /** An empty characteristic list gives an empty record. */
  lemma EmptyListGivesEmptyRecord(data: Value, decode: Decoder, combine: Combine)
    requires IsValidEnvelope(data) && Get(data, "gatt").elems == []
    ensures ProtocolSpecificDataOutcome(data, decode, combine) == Normal(Obj(map[]))
  {
  }

  /** With no supported characteristic, `combine` never runs. */
  lemma CombineNeverRunsWithoutSupported(data: Value, decode: Decoder, combine: Combine, other: Combine)
    requires IsValidEnvelope(data) && !SawSupported(Get(data, "gatt").elems)
    ensures ProtocolSpecificDataOutcome(data, decode, combine) == ProtocolSpecificDataOutcome(data, decode, other)
  {
    var gatt := Get(data, "gatt").elems;
    if VisitAll(gatt, decode).Normal? {
      ProcessorsRecorded(gatt, decode);
    }
  }

  /** With a supported characteristic, BluVib's `combine` runs once, on the record merged from every characteristic. */
  lemma CombineRunsOnceAfterMerge(data: Value, decode: Decoder, combine: Combine)
    requires IsValidEnvelope(data) && SawSupported(Get(data, "gatt").elems)
    requires VisitAll(Get(data, "gatt").elems, decode).Normal?
    ensures ProtocolSpecificDataOutcome(data, decode, combine) ==
      match combine(BluVibProcessor, VisitAll(Get(data, "gatt").elems, decode).value.processedData)
      case Thrown => Thrown
      case Normal(processedData) => Normal(Obj(processedData))
  {
    var acc := VisitAll(Get(data, "gatt").elems, decode).value;
    ProcessorsRecorded(Get(data, "gatt").elems, decode);
    assert acc.processors == [BluVibProcessor];
    match combine(BluVibProcessor, acc.processedData)
    case Thrown =>
      assert CombineAll(acc.processors, acc.processedData, combine) == Thrown;
    case Normal(next) =>
      assert acc.processors[1..] == [];
      assert CombineAll(acc.processors, acc.processedData, combine) == CombineAll([], next, combine);
  }

  /** The inputs of test/unit/advlibblegatt.test.js. */
  lemma TestExamples(combine: Combine)
    ensures ProtocolSpecificDataOutcome(Undefined, BluVib.Process, combine) == Normal(Null)
    ensures ProtocolSpecificDataOutcome(Null, BluVib.Process, combine) == Normal(Null)
    ensures ProtocolSpecificDataOutcome(Str("I am not protocolSpecificData"), BluVib.Process, combine) == Normal(Null)
    ensures ProtocolSpecificDataOutcome(Obj(map["noType" := Bool(true)]), BluVib.Process, combine) == Normal(Null)
    ensures ProtocolSpecificDataOutcome(Obj(map["type" := Str("ble"), "gatt" := Arr([])]), BluVib.Process, combine) == Normal(Obj(map[]))
  {
    assert Get(Obj(map["type" := Str("ble"), "gatt" := Arr([])]), "gatt") == Arr([]);
  }

  // ---------------------------------------------------------------------
  // The missing combine hook
  // ---------------------------------------------------------------------

  /**
   * `processor.combine(processedData)` as lib/bluvib.js is written: the
   * module exports no `combine`, so the call raises a TypeError.
   */
  function MissingCombine(processor: Processor, processedData: Record): (r: Completion<Record>)
    ensures r.Thrown?
  {
    Thrown
  }

  /** As written, any list with a supported characteristic makes processProtocolSpecificData throw. */
  lemma SupportedCharacteristicThrowsAsWritten(data: Value)
    requires IsValidEnvelope(data) && SawSupported(Get(data, "gatt").elems)
    ensures ProtocolSpecificDataOutcome(data, BluVib.Process, MissingCombine).Thrown?
  {
    var gatt := Get(data, "gatt").elems;
    if VisitAll(gatt, BluVib.Process).Normal? {
      ProcessorsRecorded(gatt, BluVib.Process);
    }
  }
}
