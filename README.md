# advlib-ble-gatt in Dafny

This project models the decoding core of reelyActive's `advlib-ble-gatt`:
the library that turns Bluetooth Low Energy GATT characteristics, as a
gateway reports them, into named readings.

- `Js.dfy` — the JavaScript values and built-ins that the library relies on:
  - `Value`, the JavaScript values involved, plus `Completion` for a thrown exception;
  - `typeof` and truthiness;
  - `String(v)` and `parseInt(v, 16)`;
  - `Buffer.from(s, 'hex')`, `readInt16LE` and `readUInt16LE`;
  - `padStart`, `s.match(/.{2}/g)`, `reverse` and `join`.
- `Utils.dfy` — `lib/utils.js`:
  - `convertToBuffer` and `convertToHexString`, which zero-pads to a byte width and can reverse the byte order;
  - the shape checks `isProtocolSpecificData` and `isGattCharacteristicFormat`.
- `BluVib.dfy` — `lib/bluvib.js`, the BluVib vibration sensor:
  - the four lookup tables and the supported service UUIDs;
  - `process`, which dispatches on the service UUID, then each service's switch on the characteristic UUID;
  - the fields decoded from each value: hex integers, table lookups, byte-reversed serial numbers and 16-bit little-endian readings with their scale factors.
- `AdvlibBleGatt.dfy` — `lib/advlibblegatt.js`:
  - `processProtocolSpecificData` is an imperative method with two loops:
    - the first decodes each characteristic and merges its record into one accumulated dictionary, in list order, and records each processor once;
    - the second runs each recorded processor's `combine` on the merged record.
  - The method is proved equal to the recursive specification `ProtocolSpecificDataOutcome`. The merge properties are lemmas about that specification.
  - The decoder is a parameter `decode` standing for `bluvib.process`; `BluVibReturnsRecords` discharges its one assumption for `BluVib.Process`.
  - `combine` is a parameter too, because `lib/bluvib.js` defines none (see Findings).

Exceptions are modelled as values (`Completion.Thrown`) and are propagated the way JavaScript propagates them. For example:
- `readInt16LE` on fewer than two bytes is a RangeError;
- `Buffer.from` of a number is a TypeError;
- `null.reverse()` after a failed `match` is a TypeError.

The BluVib field lemmas (`IntegerFieldsDecoding`, `TemperatureRange` and the like) are stated on the field functions. The `*Reading` lemmas state that `process` applies exactly that field function to the `value` of each characteristic, for any object in GATT characteristic format with those two UUIDs, whatever other keys it carries. Together they give the property for `process` itself.

## Model

| member | source | states |
|---|---|---|
| Utils.ConvertToBuffer | lib/utils.js:15-29 | the result is null or a Buffer; a Buffer is returned unchanged; any kind other than string or Buffer gives null |
| Utils.ConvertToBufferOfString | lib/utils.js:20-25 | a string is accepted exactly when it holds a hexadecimal digit of either case anywhere (the regex is unanchored), and then decodes as `Buffer.from(s, 'hex')` |
| Utils.ConvertToBufferRoundTrip | lib/utils.js:20-25 | the hexadecimal text of a non-empty Buffer converts back to that Buffer |
| Utils.ConvertToHexString | lib/utils.js:39-57 | the result is null or a string, and it can throw only when `reverseEndianness === true` |
| Utils.NoReversalUnlessTrue | lib/utils.js:52-56 | with `reverseEndianness` anything but `true` the padded text is returned unchanged |
| Utils.HexStringOfNonNegativeInteger | lib/utils.js:42-43 | a non-negative integer gives its lowercase hex digits, '0'-padded to at least `2*length` characters and never truncated; the text still denotes the integer |
| Utils.UnacceptedDataGivesNull | lib/utils.js:40-56 | a negative or fractional number, NaN, and every kind other than number, Buffer or string give null |
| Utils.HexStringOfString | lib/utils.js:48-49 | a string is '0'-padded to at least `2*length` characters and otherwise kept as it is, without validation |
| Utils.ReversedHexString | lib/utils.js:48-53 | with `reverseEndianness === true` a string's padded text (even length, no line terminators) comes back with its 2-character groups reversed; converting again restores it |
| Utils.ReversedHexStringOfInteger | lib/utils.js:42-53 | the same reversal and restoration for a non-negative integer's padded digits |
| Utils.ReversedHexStringOfBuffer | lib/utils.js:45-53 | the same reversal and restoration for a Buffer's padded hex text |
| Utils.SwapPairsInvolution | lib/utils.js:53 | match-reverse-join on an even-length text reverses its pairs and is its own inverse |
| Utils.ThrowsOnlyOnLineTerminators | lib/utils.js:52-53 | with a length of at least one byte, the conversion can throw only for a string holding a line terminator (`.` does not match one) |
| Utils.SerialNumberExample | lib/utils.js:52-53 | '78563412' with length 4, reversed, gives '12345678' |
| Utils.ProtocolSpecificDataShape | lib/utils.js:65-68 | `isProtocolSpecificData` holds exactly for a plain object or an array, that is a non-null non-Buffer object |
| Utils.GattCharacteristicFormatShape | lib/utils.js:76-80 | `isGattCharacteristicFormat` holds exactly for an object whose `serviceUuid` and `characteristicUuid` are strings |
| Js.ParseIntOfDigits | lib/bluvib.js:78 | `parseInt(s, 16)` of a non-empty hex-digit string is the number its digits denote |
| Js.HexDecodeOfBytesToHex | lib/utils.js:24 | decoding the hex text of a byte sequence gives the bytes back |
| Js.Int16LERoundTrip | lib/bluvib.js:86-87 | the two little-endian bytes written for a 16-bit value read back as that value, signed or unsigned |
| BluVib.Process | lib/bluvib.js:27-42 | null for data not in GATT characteristic format; undefined for an unsupported service; otherwise an object, null, undefined or a throw |
| BluVib.ProcessOutcome | lib/bluvib.js:27-145 | null exactly for non-GATT data or a characteristic its service does not list; undefined exactly for an unsupported service (the switch has no default); an object or a throw for every listed characteristic |
| BluVib.ProcessSensorInformationService | lib/bluvib.js:50-63 | its records hold only `serialNumber`; only the serial characteristic can throw |
| BluVib.ProcessVibrationService | lib/bluvib.js:71-95 | its records hold only the vibration fields; only the calibration characteristic can throw |
| BluVib.ProcessConfigService | lib/bluvib.js:103-130 | its records hold only the config fields; only temperature and battery can throw |
| BluVib.ProcessSystemService | lib/bluvib.js:138-145 | never throws; the result is null or a record holding only `errorCode` |
| BluVib.SensorInformationNull | lib/bluvib.js:51-62 | null exactly for a characteristic the sensor-information service does not list |
| BluVib.VibrationNull | lib/bluvib.js:72-94 | null exactly for a characteristic the vibration service does not list |
| BluVib.ConfigNull | lib/bluvib.js:104-129 | null exactly for a characteristic the config service does not list |
| BluVib.SystemNull | lib/bluvib.js:139-144 | null exactly for a characteristic other than error |
| BluVib.SerialReading | lib/bluvib.js:52-53 | for any GATT-format object with the serial characteristic's UUIDs, whatever its other keys, the result is `{serialNumber: convertToHexString(value, 4, true)}`, whatever the value |
| BluVib.GainReading | lib/bluvib.js:77-78 | for any GATT-format object with the gain characteristic's UUIDs, whatever its other keys, the result is `{gain: parseInt(value, 16)}` |
| BluVib.SampleRateReading | lib/bluvib.js:79-80 | for any GATT-format object with the sample-rate characteristic's UUIDs, whatever its other keys, the result is the sample-rate table at `parseInt(value, 16)` |
| BluVib.TraceLenReading | lib/bluvib.js:81-82 | for any GATT-format object with the trace-length characteristic's UUIDs, whatever its other keys, the result is the numbers-of-samples table at `parseInt(value, 16)` |
| BluVib.CalibrationReading | lib/bluvib.js:85-87 | for any GATT-format object with the calibration characteristic's UUIDs, whatever its other keys, the result is the signed 16-bit reading times 10 |
| BluVib.AxesReading | lib/bluvib.js:90-91 | for any GATT-format object with the axes characteristic's UUIDs, whatever its other keys, the result is `{numberOfAxes: parseInt(value, 16)}` |
| BluVib.ModeReading | lib/bluvib.js:107-108 | for any GATT-format object with the mode characteristic's UUIDs, whatever its other keys, the result is the operating-mode table at `parseInt(value, 16)` |
| BluVib.TemperatureReading | lib/bluvib.js:109-111 | for any GATT-format object with the temperature characteristic's UUIDs, whatever its other keys, the result is the signed 16-bit reading divided by 256 |
| BluVib.BatteryReading | lib/bluvib.js:120-122 | for any GATT-format object with the battery characteristic's UUIDs, whatever its other keys, the result is the unsigned 16-bit reading divided by 1000 |
| BluVib.ErrorReading | lib/bluvib.js:140-141 | for any GATT-format object with the error characteristic's UUIDs, whatever its other keys, the result is `{errorCode: parseInt(value, 16)}` |
| BluVib.SamplesPassThrough | lib/bluvib.js:73-74 | the data characteristic passes `values` through unchanged as `accelerationTimeseries` |
| BluVib.IntegerFieldsDecoding | lib/bluvib.js:78 | gain, number of axes and error code are the value's hex digits read as an integer |
| BluVib.TableFieldsDecoding | lib/bluvib.js:80 | sample rate, trace length and operating mode are table entries at the value's hex code |
| BluVib.SampleRateCode | lib/bluvib.js:14 | the sample-rate table gives an integer rate in [256, 25600] Hz exactly for codes 1..7, and undefined for code 0 and codes of 8 or more (never a wrapped index) |
| BluVib.NumberOfSamplesAt | lib/bluvib.js:15-17 | entry `i` of the numbers-of-samples table is 64·2^i |
| BluVib.NumberOfSamplesCode | lib/bluvib.js:15-17 | the trace-length lookup gives 64·2^n for codes below 16, and undefined beyond |
| BluVib.OperatingModeCode | lib/bluvib.js:18-19 | the operating-mode lookup names a mode exactly for codes 1..5, and is undefined for 0 and codes of 6 or more |
| BluVib.SerialNumberThrowsOnlyOnLineTerminators | lib/bluvib.js:53 | reading the serial number throws only for a string value holding a line terminator |
| BluVib.SerialNumberDecoding | lib/bluvib.js:53 | the serial number is the value '0'-padded to 8 characters with its byte pairs reversed; reversing again restores it |
| BluVib.TwoByteReadingThrows | lib/bluvib.js:86-122 | a calibration, temperature or battery reading throws exactly when `Buffer.from` throws or gives fewer than two bytes |
| BluVib.HexTextReading | lib/bluvib.js:86-122 | a hex-digit value reads without error exactly when it has at least four digits |
| BluVib.TemperatureRange | lib/bluvib.js:110-111 | a temperature is a multiple of 1/256 in [-128, 128) |
| BluVib.TemperatureRoundTrip | lib/bluvib.js:110-111 | the temperature read from the bytes written for a signed 16-bit `k` is `k/256` |
| BluVib.BatteryRange | lib/bluvib.js:121-122 | a battery voltage is a multiple of 1/1000 in [0, 65.535] |
| BluVib.BatteryRoundTrip | lib/bluvib.js:121-122 | the voltage read from the bytes written for an unsigned 16-bit `k` is `k/1000` |
| BluVib.CalibrationRange | lib/bluvib.js:86-87 | a calibration is an integer multiple of 10 in [-327680, 327670] |
| BluVib.CalibrationRoundTrip | lib/bluvib.js:86-87 | the calibration read from the bytes written for a signed 16-bit `k` is `10k` |
| BluVib.NoInputExample | test/unit/bluvib.test.js:85-87 | `process()` gives null |
| BluVib.SerialExample | test/unit/bluvib.test.js:90-93 | the serial '78563412' gives `{serialNumber: "12345678"}` |
| BluVib.GainExample | test/unit/bluvib.test.js:102-105 | gain '04' gives `{gain: 4}` |
| BluVib.SampleRateExample | test/unit/bluvib.test.js:108-111 | sample rate '07' gives `{sampleRate: 256}` |
| BluVib.TraceLenExample | test/unit/bluvib.test.js:114-117 | trace length '04' gives `{numberOfSamples: 1024}` |
| BluVib.CalibrationExample | lib/bluvib.js:86-87 | calibration '8813' gives `{calibration: 50000}`, as the code computes (the test expects 5000; see Left out) |
| BluVib.OperatingModeExample | test/unit/bluvib.test.js:126-129 | mode '02' gives `{operatingMode: "Wakeup"}` |
| BluVib.TemperatureExample | test/unit/bluvib.test.js:132-135 | temperature 'c019' gives `{temperature: 25.75}` |
| BluVib.BatteryExample | test/unit/bluvib.test.js:138-141 | battery '480d' gives `{batteryVoltage: 3.4}` |
| BluVib.ErrorExample | test/unit/bluvib.test.js:144-147 | error '45' gives `{errorCode: 69}` |
| AdvlibBleGatt.ProcessProtocolSpecificData | lib/advlibblegatt.js:16-46 | the two loops compute exactly `ProtocolSpecificDataOutcome`; an invalid envelope gives null; any other normal result is an object |
| AdvlibBleGatt.Assign | lib/advlibblegatt.js:35 | `Object.assign` of an object gives the union of keys, with the source's value winning; a non-object source changes nothing |
| AdvlibBleGatt.VisitAllPrefixThrown | lib/advlibblegatt.js:25-38 | an exception thrown while decoding any prefix of the list ends the whole loop |
| AdvlibBleGatt.BluVibReturnsRecords | lib/advlibblegatt.js:30 | `bluvib.process` returns only objects, null or undefined |
| AdvlibBleGatt.VisitStep | lib/advlibblegatt.js:26-36 | one characteristic either throws, or adds its decoded properties to the record and records BluVib if it was supported |
| AdvlibBleGatt.SkippedCharacteristic | lib/advlibblegatt.js:26-35 | a characteristic not in GATT format or of an unsupported service leaves the record and the processors unchanged |
| AdvlibBleGatt.NullResultKeepsRecord | lib/advlibblegatt.js:34-36 | a null or undefined decoder result leaves the record unchanged |
| AdvlibBleGatt.MergedKeys | lib/advlibblegatt.js:25-36 | a key is in the merged record exactly when some characteristic contributed it |
| AdvlibBleGatt.LastContributionWins | lib/advlibblegatt.js:25-36 | for a repeated key, the value of the last characteristic that sets it wins |
| AdvlibBleGatt.ProcessorsRecorded | lib/advlibblegatt.js:22-31 | the processors list is `[bluvib]` exactly when a supported characteristic was seen, and empty otherwise |
| AdvlibBleGatt.ThrowsWhenSomeDecodingThrows | lib/advlibblegatt.js:25-38 | the loop throws exactly when decoding some supported characteristic throws |
| AdvlibBleGatt.NullExactlyForInvalidEnvelope | lib/advlibblegatt.js:17-19 | the result is null exactly unless the input is a non-null non-Buffer object whose `gatt` is an array |
| AdvlibBleGatt.EmptyListGivesEmptyRecord | lib/advlibblegatt.js:21-45 | an empty `gatt` list gives `{}` |
| AdvlibBleGatt.CombineNeverRunsWithoutSupported | lib/advlibblegatt.js:41-43 | with no supported characteristic, the result does not depend on `combine` at all |
| AdvlibBleGatt.CombineRunsOnceAfterMerge | lib/advlibblegatt.js:41-45 | otherwise `combine` runs once, on the record merged from every characteristic, and the record as `combine` leaves it is returned |
| AdvlibBleGatt.TestExamples | test/unit/advlibblegatt.test.js:12-57 | no input, null, the string, and `{noType: true}` give null; `{type: "ble", gatt: []}` gives `{}` |
| AdvlibBleGatt.MissingCombine | lib/bluvib.js:147-148 | calling the `combine` that the module does not export always throws |
| AdvlibBleGatt.SupportedCharacteristicThrowsAsWritten | lib/advlibblegatt.js:29-43 | as written, any valid envelope with a supported characteristic makes the call throw |

## Left out

- `combine`: `lib/bluvib.js` defines no `combine`, so it is a parameter of the model, with no body.
- The FFT and velocity-overall pipeline is not part of this model: no file of it is among the modelled sources.
- Numbers are exact reals plus NaN. IEEE doubles are not modelled. Lost with them:
  - the rounding of `/256` and `/1000`;
  - `-0`;
  - the precision `parseInt` loses on numerals longer than 53 bits.
- `NumberText`: JavaScript writes numbers of magnitude 1e21 or more, and non-zero numbers below 1e-6, with an exponent. Those texts are not modelled. For example, `parseInt(1e-7, 16)` is 30 in JavaScript but 0 in the model.
- `AsciiText`: a Buffer converted to text (a Buffer `value` for gain, sample rate, trace length, mode or error) is read up to its first byte above 0x7f. That byte is modelled as one U+FFFD. Node decodes UTF-8 there. The two differ where the text starts with a multi-byte whitespace character that `parseInt` would skip. For example, `c2 a0 34 35` gives 69 in Node and NaN in the model.
- `BufferFrom`: `Buffer.from(value, 'hex')` is modelled for strings and Buffers. Every other kind is modelled as a TypeError. Node agrees for undefined, null, booleans, numbers and plain objects that have no `length` and are not of the form `{type: 'Buffer', data: <array>}`. Node instead copies arrays and array-like objects element by element (`[0xc0, 0x19]` as a temperature gives 25.75), and the model does not. Node also copies the `data` array of a `{type: 'Buffer', data: <array>}` object, which is what `JSON.stringify` makes of a Buffer (`{type: 'Buffer', data: [0xc0, 0x19]}` as a temperature gives 25.75), and the model does not. `TwoByteReadingThrows` is stated for the model's `BufferFrom`.
- Strings are sequences of Unicode scalar values, not UTF-16 code units. `padStart` and `/.{2}/g` therefore count an astral character as one unit where JavaScript counts two.
- Case conversion in `convertToBuffer` is modelled for ASCII letters only. Non-ASCII characters never reach the hex decoder as digits.
- Object key order is not modelled. Records are maps, so only which keys exist and their values are stated, not the order `Object.assign` gives.
- `Object.assign` with a truthy non-object source is not modelled: any truthy value with indexed properties (a string, an array or a Buffer) would copy them. BluVib's `process` never returns such a value (`BluVibReturnsRecords`), so the merge loop never meets one.
- Sparse arrays, getters, prototypes and `Array.isArray` on exotic objects are not modelled.
- The placeholder characteristics that return `{}` (lib/bluvib.js:54-59, 75-76, 83-84, 88-89, 105-106, 112-119, 123-126) are modelled as giving an empty record, and nothing more is stated about them.
- Utils.ReversedHexStringOfInteger requires an even padded length. With an odd number of digits and no padding, the `/.{2}/g` match drops the last digit. That case is defined by `ConvertToHexString` but no lemma states it.
- Two unit-test expectations disagree with the code. The model follows the code in both cases:
  - `test/unit/bluvib.test.js:74` expects calibration 5000 for '8813'. `lib/bluvib.js:87` multiplies 0x1388 = 5000 by 10, and `BluVib.CalibrationExample` states 50000.
  - `test/unit/bluvib.test.js:70` expects `accelerationSamplesHex`, the concatenated sample text. `lib/bluvib.js:74` returns `accelerationTimeseries: data.values`, and `BluVib.SamplesPassThrough` states that.
- Module wiring (`require`, `module.exports`) and the mocha harness are not modelled.

## Findings

| source | as written | input that shows it | evidently intended | confidence | as-written member | corrected member |
|---|---|---|---|---|---|---|
| lib/advlibblegatt.js:41-43 with lib/bluvib.js:147-148 | each recorded processor's `combine` is called, but `bluvib` exports only `process` and `supportedServiceUuids`, so `processor.combine` is undefined and the call is a TypeError | `{gatt: [{serviceUuid: '1c930004d45911e79296b8e856369374', characteristicUuid: '1c930043d45911e79296b8e856369374', value: '45'}]}` | BluVib's `combine` runs once on the merged record and the merged (possibly combined) record is returned | not executed | AdvlibBleGatt.SupportedCharacteristicThrowsAsWritten (with AdvlibBleGatt.MissingCombine) | AdvlibBleGatt.CombineRunsOnceAfterMerge (with the `combine` parameter of AdvlibBleGatt.ProcessProtocolSpecificData) |
