/**
 * The BluVib vibration-sensor decoder of lib/bluvib.js: a characteristic is
 * dispatched on its service UUID, then on its characteristic UUID, and its
 * hexadecimal value is turned into named fields.
 */
module BluVib {
  import opened Js
  import Utils

  // ---------------------------------------------------------------------
  // Services

  const SENSOR_INFORMATION_SERVICE_UUID := "1c930001d45911e79296b8e856369374"
  const VIBRATION_SERVICE_UUID := "1c930002d45911e79296b8e856369374"
  const CONFIG_SERVICE_UUID := "1c930003d45911e79296b8e856369374"
  const SYSTEM_SERVICE_UUID := "1c930004d45911e79296b8e856369374"

  const SUPPORTED_SERVICE_UUIDS: seq<string> :=
    [SENSOR_INFORMATION_SERVICE_UUID, VIBRATION_SERVICE_UUID, CONFIG_SERVICE_UUID, SYSTEM_SERVICE_UUID]

  // ---------------------------------------------------------------------
  // Characteristics of the Sensor Information Service

  const SERIAL_UUID := "1c930010d45911e79296b8e856369374"
  const STM32_FW_UUID := "1c930011d45911e79296b8e856369374"
  const RF_FW_UUID := "1c930012d45911e79296b8e856369374"
  const HARDWARE_UUID := "1c930013d45911e79296b8e856369374"
  const BLE_UUID := "1c930014d45911e79296b8e856369374"
  const SENSOR_TYPE_UUID := "1c930015d45911e79296b8e856369374"

  // Characteristics of the Vibration Service

  const DATA_UUID := "1c930020d45911e79296b8e856369374"
  const DATA_SET_UUID := "1c930021d45911e79296b8e856369374"
  const GAIN_UUID := "1c930022d45911e79296b8e856369374"
  const SAMPLE_RATE_UUID := "1c930023d45911e79296b8e856369374"
  const TRACE_LEN_UUID := "1c930024d45911e79296b8e856369374"
  const TRIGGER_DELAY_UUID := "1c930025d45911e79296b8e856369374"
  const CALIBRATION_UUID := "1c930029d45911e79296b8e856369374"
  const SEQUENCE_UUID := "1c93002ad45911e79296b8e856369374"
  const AXES_UUID := "1c93002bd45911e79296b8e856369374"

  // Characteristics of the Config Service

  const RELEASE_UUID := "1c930030d45911e79296b8e856369374"
  const MODE_UUID := "1c930031d45911e79296b8e856369374"
  const TEMP_UUID := "1c930032d45911e79296b8e856369374"
  const TIME_UUID := "1c930033d45911e79296b8e856369374"
  const WAKEUP_TIME_UUID := "1c930035d45911e79296b8e856369374"
  const WAKEUP_INTERVAL_UUID := "1c930036d45911e79296b8e856369374"
  const WAKEUP_LEVEL_UUID := "1c930037d45911e79296b8e856369374"
  const BATTERY_UUID := "1c930038d45911e79296b8e856369374"
  const CAPTURE_TIME_UUID := "1c930039d45911e79296b8e856369374"
  const HOLDOFF_INTERVAL_UUID := "1c93003ad45911e79296b8e856369374"

  // Characteristics of the System Service

  const ERROR_UUID := "1c930043d45911e79296b8e856369374"

  /** The characteristic UUIDs each service's switch has a case for. */
  const SENSOR_INFORMATION_CHARACTERISTIC_UUIDS: set<string> :=
    {SERIAL_UUID, STM32_FW_UUID, RF_FW_UUID, HARDWARE_UUID, BLE_UUID, SENSOR_TYPE_UUID}
  const VIBRATION_CHARACTERISTIC_UUIDS: set<string> :=
    {DATA_UUID, DATA_SET_UUID, GAIN_UUID, SAMPLE_RATE_UUID, TRACE_LEN_UUID, TRIGGER_DELAY_UUID,
     CALIBRATION_UUID, SEQUENCE_UUID, AXES_UUID}
  const CONFIG_CHARACTERISTIC_UUIDS: set<string> :=
    {RELEASE_UUID, MODE_UUID, TEMP_UUID, TIME_UUID, WAKEUP_TIME_UUID, WAKEUP_INTERVAL_UUID,
     WAKEUP_LEVEL_UUID, BATTERY_UUID, CAPTURE_TIME_UUID, HOLDOFF_INTERVAL_UUID}
  const SYSTEM_CHARACTERISTIC_UUIDS: set<string> := {ERROR_UUID}

  function KnownCharacteristicUuids(serviceUuid: string): set<string>
  {
    if serviceUuid == SENSOR_INFORMATION_SERVICE_UUID then SENSOR_INFORMATION_CHARACTERISTIC_UUIDS
    else if serviceUuid == VIBRATION_SERVICE_UUID then VIBRATION_CHARACTERISTIC_UUIDS
    else if serviceUuid == CONFIG_SERVICE_UUID then CONFIG_CHARACTERISTIC_UUIDS
    else if serviceUuid == SYSTEM_SERVICE_UUID then SYSTEM_CHARACTERISTIC_UUIDS
    else {}
  }

  // ---------------------------------------------------------------------
  // Lookup tables

  const SAMPLE_RATES_HZ: seq<Value> :=
    [Undefined, Num(25600.0), Num(12800.0), Num(5120.0), Num(2560.0), Num(1280.0), Num(512.0), Num(256.0)]

  const NUMBERS_OF_SAMPLES: seq<Value> :=
    [Num(64.0), Num(128.0), Num(256.0), Num(512.0), Num(1024.0), Num(2048.0), Num(4096.0),
     Num(8192.0), Num(16384.0), Num(32768.0), Num(65536.0), Num(131072.0), Num(262144.0),
     Num(524288.0), Num(1048576.0), Num(2097152.0)]

  const OPERATING_MODES: seq<Value> :=
    [Undefined, Str("Continuous"), Str("Wakeup"), Str("Wakeup+"), Str("Ready"), Str("Event/Triggered")]

  /** The field names each service can produce. */
  const SENSOR_INFORMATION_FIELDS: set<string> := {"serialNumber"}
  const VIBRATION_FIELDS: set<string> :=
    {"accelerationTimeseries", "gain", "sampleRate", "numberOfSamples", "calibration", "numberOfAxes"}
  const CONFIG_FIELDS: set<string> := {"operatingMode", "temperature", "batteryVoltage"}
  const SYSTEM_FIELDS: set<string> := {"errorCode"}

  /** A one-field object. */
  function Field(name: string, v: Value): Value
  {
    Obj(map[name := v])
  }

  /** `Buffer.from(value, 'hex').readInt16LE()`. */
  function ReadInt16Value(value: Value): (r: Completion<int>)
    ensures r.Normal? ==> -32768 <= r.value < 32768
  {
    match BufferFrom(value)
    case Thrown => Thrown
    case Normal(b) => ReadInt16LE(b)
  }

  /** `Buffer.from(value, 'hex').readUInt16LE()`. */
  function ReadUInt16Value(value: Value): (r: Completion<int>)
    ensures r.Normal? ==> 0 <= r.value < 65536
  {
    match BufferFrom(value)
    case Thrown => Thrown
    case Normal(b) => ReadUInt16LE(b)
  }

  // ---------------------------------------------------------------------
  // What each characteristic's value decodes to

  /** The serial number: the value as 4 bytes of hexadecimal text, in reverse byte order. */
  function SerialNumberField(value: Value): Completion<Value>
  {
    match Utils.ConvertToHexString(value, 4, Bool(true))
    case Thrown => Thrown
    case Normal(serial) => Normal(Field("serialNumber", serial))
  }

  function GainField(value: Value): Value
  {
    Field("gain", ParseIntValue(value))
  }

  function SampleRateField(value: Value): Value
  {
    Field("sampleRate", Index(SAMPLE_RATES_HZ, ParseIntValue(value)))
  }

  function NumberOfSamplesField(value: Value): Value
  {
    Field("numberOfSamples", Index(NUMBERS_OF_SAMPLES, ParseIntValue(value)))
  }

  function CalibrationField(value: Value): Completion<Value>
  {
    match ReadInt16Value(value)
    case Thrown => Thrown
    case Normal(k) => Normal(Field("calibration", Num((k * 10) as real)))
  }

  function NumberOfAxesField(value: Value): Value
  {
    Field("numberOfAxes", ParseIntValue(value))
  }

  function OperatingModeField(value: Value): Value
  {
    Field("operatingMode", Index(OPERATING_MODES, ParseIntValue(value)))
  }

  function TemperatureField(value: Value): Completion<Value>
  {
    match ReadInt16Value(value)
    case Thrown => Thrown
    case Normal(k) => Normal(Field("temperature", Num(k as real / 256.0)))
  }

  function BatteryVoltageField(value: Value): Completion<Value>
  {
    match ReadUInt16Value(value)
    case Thrown => Thrown
    case Normal(k) => Normal(Field("batteryVoltage", Num(k as real / 1000.0)))
  }

  function ErrorCodeField(value: Value): Value
  {
    Field("errorCode", ParseIntValue(value))
  }

  // ---------------------------------------------------------------------
  // Decoding

  /** process(data). */
  function Process(data: Value): (r: Completion<Value>)
    ensures !Utils.IsGattCharacteristicFormat(data) ==> r == Normal(Null)
    ensures Utils.IsGattCharacteristicFormat(data) && Get(data, "serviceUuid").s !in SUPPORTED_SERVICE_UUIDS
            ==> r == Normal(Undefined)
    ensures r.Normal? ==> r.value.Obj? || r.value == Null || r.value == Undefined
  {
    if !Utils.IsGattCharacteristicFormat(data) then Normal(Null)
    else
      var serviceUuid := Get(data, "serviceUuid").s;
      if serviceUuid == SENSOR_INFORMATION_SERVICE_UUID then ProcessSensorInformationService(data)
      else if serviceUuid == VIBRATION_SERVICE_UUID then ProcessVibrationService(data)
      else if serviceUuid == CONFIG_SERVICE_UUID then ProcessConfigService(data)
      else if serviceUuid == SYSTEM_SERVICE_UUID then ProcessSystemService(data)
      else Normal(Undefined)
  }

  /** processSensorInformationService(data). */
  function ProcessSensorInformationService(data: Value): (r: Completion<Value>)
    ensures r.Normal? ==> r.value == Null || (r.value.Obj? && r.value.props.Keys <= SENSOR_INFORMATION_FIELDS)
    ensures r.Thrown? ==> Get(data, "characteristicUuid") == Str(SERIAL_UUID)
  {
    var characteristicUuid := Get(data, "characteristicUuid");
    if characteristicUuid == Str(SERIAL_UUID) then SerialNumberField(Get(data, "value"))
    else if characteristicUuid in {Str(STM32_FW_UUID), Str(RF_FW_UUID), Str(HARDWARE_UUID), Str(BLE_UUID),
                                   Str(SENSOR_TYPE_UUID)} then
      Normal(Obj(map[]))
    else Normal(Null)
  }

  /** processVibrationService(data). */
  function ProcessVibrationService(data: Value): (r: Completion<Value>)
    ensures r.Normal? ==> r.value == Null || (r.value.Obj? && r.value.props.Keys <= VIBRATION_FIELDS)
    ensures r.Thrown? ==> Get(data, "characteristicUuid") == Str(CALIBRATION_UUID)
  {
    var characteristicUuid := Get(data, "characteristicUuid");
    var value := Get(data, "value");
    if characteristicUuid == Str(DATA_UUID) then
      Normal(Field("accelerationTimeseries", Get(data, "values")))
    else if characteristicUuid == Str(DATA_SET_UUID) then Normal(Obj(map[]))
    else if characteristicUuid == Str(GAIN_UUID) then Normal(GainField(value))
    else if characteristicUuid == Str(SAMPLE_RATE_UUID) then Normal(SampleRateField(value))
    else if characteristicUuid == Str(TRACE_LEN_UUID) then Normal(NumberOfSamplesField(value))
    else if characteristicUuid == Str(TRIGGER_DELAY_UUID) then Normal(Obj(map[]))
    else if characteristicUuid == Str(CALIBRATION_UUID) then CalibrationField(value)
    else if characteristicUuid == Str(SEQUENCE_UUID) then Normal(Obj(map[]))
    else if characteristicUuid == Str(AXES_UUID) then Normal(NumberOfAxesField(value))
    else Normal(Null)
  }

  /** processConfigService(data). */
  function ProcessConfigService(data: Value): (r: Completion<Value>)
    ensures r.Normal? ==> r.value == Null || (r.value.Obj? && r.value.props.Keys <= CONFIG_FIELDS)
    ensures r.Thrown? ==> Get(data, "characteristicUuid") == Str(TEMP_UUID) || Get(data, "characteristicUuid") == Str(BATTERY_UUID)
  {
    var characteristicUuid := Get(data, "characteristicUuid");
    var value := Get(data, "value");
    if characteristicUuid == Str(RELEASE_UUID) then Normal(Obj(map[]))
    else if characteristicUuid == Str(MODE_UUID) then Normal(OperatingModeField(value))
    else if characteristicUuid == Str(TEMP_UUID) then TemperatureField(value)
    else if characteristicUuid in {Str(TIME_UUID), Str(WAKEUP_TIME_UUID), Str(WAKEUP_INTERVAL_UUID),
                                   Str(WAKEUP_LEVEL_UUID)} then
      Normal(Obj(map[]))
    else if characteristicUuid == Str(BATTERY_UUID) then BatteryVoltageField(value)
    else if characteristicUuid in {Str(CAPTURE_TIME_UUID), Str(HOLDOFF_INTERVAL_UUID)} then
      Normal(Obj(map[]))
    else Normal(Null)
  }

  /** processSystemService(data). */
  function ProcessSystemService(data: Value): (r: Completion<Value>)
    ensures r.Normal?
    ensures r.value == Null || (r.value.Obj? && r.value.props.Keys <= SYSTEM_FIELDS)
  {
    if Get(data, "characteristicUuid") == Str(ERROR_UUID) then Normal(ErrorCodeField(Get(data, "value")))
    else Normal(Null)
  }

  // ---------------------------------------------------------------------
  // Dispatch

  /** A characteristic as the GATT layer delivers it: its two UUIDs and its hexadecimal value. */
  function Characteristic(serviceUuid: string, characteristicUuid: string, value: Value): (d: Value)
    ensures Utils.IsGattCharacteristicFormat(d)
    ensures Get(d, "serviceUuid") == Str(serviceUuid) && Get(d, "characteristicUuid") == Str(characteristicUuid)
    ensures Get(d, "value") == value
  {
    Obj(map["serviceUuid" := Str(serviceUuid), "characteristicUuid" := Str(characteristicUuid), "value" := value])
  }

  /** Two texts that differ at one position differ. */
  lemma DifferAt(a: string, b: string, i: nat)
    requires i < |a| && i < |b| && a[i] != b[i]
    ensures a != b && Str(a) != Str(b)
  {
  }

  /** The four service UUIDs are distinct. */
  lemma ServicesDistinct()
    ensures VIBRATION_SERVICE_UUID != SENSOR_INFORMATION_SERVICE_UUID
    ensures CONFIG_SERVICE_UUID != SENSOR_INFORMATION_SERVICE_UUID && CONFIG_SERVICE_UUID != VIBRATION_SERVICE_UUID
    ensures SYSTEM_SERVICE_UUID != SENSOR_INFORMATION_SERVICE_UUID && SYSTEM_SERVICE_UUID != VIBRATION_SERVICE_UUID
    ensures SYSTEM_SERVICE_UUID != CONFIG_SERVICE_UUID
  {
    DifferAt(VIBRATION_SERVICE_UUID, SENSOR_INFORMATION_SERVICE_UUID, 7);
    DifferAt(CONFIG_SERVICE_UUID, SENSOR_INFORMATION_SERVICE_UUID, 7);
    DifferAt(CONFIG_SERVICE_UUID, VIBRATION_SERVICE_UUID, 7);
    DifferAt(SYSTEM_SERVICE_UUID, SENSOR_INFORMATION_SERVICE_UUID, 7);
    DifferAt(SYSTEM_SERVICE_UUID, VIBRATION_SERVICE_UUID, 7);
    DifferAt(SYSTEM_SERVICE_UUID, CONFIG_SERVICE_UUID, 7);
  }

  lemma SensorInformationDispatch(data: Value)
    requires Utils.IsGattCharacteristicFormat(data) && Get(data, "serviceUuid") == Str(SENSOR_INFORMATION_SERVICE_UUID)
    ensures Process(data) == ProcessSensorInformationService(data)
  {
  }

  lemma VibrationDispatch(data: Value)
    requires Utils.IsGattCharacteristicFormat(data) && Get(data, "serviceUuid") == Str(VIBRATION_SERVICE_UUID)
    ensures Process(data) == ProcessVibrationService(data)
  {
    ServicesDistinct();
  }

  lemma ConfigDispatch(data: Value)
    requires Utils.IsGattCharacteristicFormat(data) && Get(data, "serviceUuid") == Str(CONFIG_SERVICE_UUID)
    ensures Process(data) == ProcessConfigService(data)
  {
    ServicesDistinct();
  }

  lemma SystemDispatch(data: Value)
    requires Utils.IsGattCharacteristicFormat(data) && Get(data, "serviceUuid") == Str(SYSTEM_SERVICE_UUID)
    ensures Process(data) == ProcessSystemService(data)
  {
    ServicesDistinct();
  }

  lemma SensorInformationNull(data: Value)
    requires Get(data, "characteristicUuid").Str?
    ensures ProcessSensorInformationService(data) == Normal(Null) <==>
            Get(data, "characteristicUuid").s !in SENSOR_INFORMATION_CHARACTERISTIC_UUIDS
  {
  }

  lemma VibrationNull(data: Value)
    requires Get(data, "characteristicUuid").Str?
    ensures ProcessVibrationService(data) == Normal(Null) <==>
            Get(data, "characteristicUuid").s !in VIBRATION_CHARACTERISTIC_UUIDS
  {
  }

  lemma ConfigNull(data: Value)
    requires Get(data, "characteristicUuid").Str?
    ensures ProcessConfigService(data) == Normal(Null) <==>
            Get(data, "characteristicUuid").s !in CONFIG_CHARACTERISTIC_UUIDS
  {
  }

  lemma SystemNull(data: Value)
    requires Get(data, "characteristicUuid").Str?
    ensures ProcessSystemService(data) == Normal(Null) <==>
            Get(data, "characteristicUuid").s !in SYSTEM_CHARACTERISTIC_UUIDS
  {
  }

  /**
   * `process` gives null exactly for data not in the GATT characteristic
   * format and for a characteristic its service does not list, undefined
   * exactly for a service it does not support, and an object or an
   * exception for every listed characteristic.
   */
  lemma ProcessOutcome(data: Value)
    ensures Process(data) == Normal(Null) <==>
            || !Utils.IsGattCharacteristicFormat(data)
            || (&& Get(data, "serviceUuid").s in SUPPORTED_SERVICE_UUIDS
                && Get(data, "characteristicUuid").s !in KnownCharacteristicUuids(Get(data, "serviceUuid").s))
    ensures Process(data) == Normal(Undefined) <==>
            Utils.IsGattCharacteristicFormat(data) && Get(data, "serviceUuid").s !in SUPPORTED_SERVICE_UUIDS
    ensures Utils.IsGattCharacteristicFormat(data)
            && Get(data, "characteristicUuid").s in KnownCharacteristicUuids(Get(data, "serviceUuid").s)
            ==> Process(data).Thrown? || Process(data).value.Obj?
  {
    if Utils.IsGattCharacteristicFormat(data) {
      var serviceUuid := Get(data, "serviceUuid").s;
      ServicesDistinct();
      if serviceUuid == SENSOR_INFORMATION_SERVICE_UUID {
        SensorInformationDispatch(data);
        SensorInformationNull(data);
      } else if serviceUuid == VIBRATION_SERVICE_UUID {
        VibrationDispatch(data);
        VibrationNull(data);
      } else if serviceUuid == CONFIG_SERVICE_UUID {
        ConfigDispatch(data);
        ConfigNull(data);
      } else if serviceUuid == SYSTEM_SERVICE_UUID {
        SystemDispatch(data);
        SystemNull(data);
      }
    }
  }

  // ---------------------------------------------------------------------
  // The field each characteristic's value is decoded into, for any value and
  // any characteristic object in GATT format, whatever other keys it carries

  lemma SerialBranch(data: Value)
    requires Get(data, "characteristicUuid") == Str(SERIAL_UUID)
    ensures ProcessSensorInformationService(data) == SerialNumberField(Get(data, "value"))
  {
  }

  lemma SerialReading(data: Value)
    requires Utils.IsGattCharacteristicFormat(data)
    requires Get(data, "serviceUuid") == Str(SENSOR_INFORMATION_SERVICE_UUID) && Get(data, "characteristicUuid") == Str(SERIAL_UUID)
    ensures Process(data) == SerialNumberField(Get(data, "value"))
  {
    SensorInformationDispatch(data);
    SerialBranch(data);
  }

  lemma GainBranch(data: Value)
    requires Get(data, "characteristicUuid") == Str(GAIN_UUID)
    ensures ProcessVibrationService(data) == Normal(GainField(Get(data, "value")))
  {
    DifferAt(GAIN_UUID, DATA_UUID, 7);
    DifferAt(GAIN_UUID, DATA_SET_UUID, 7);
  }

  lemma GainReading(data: Value)
    requires Utils.IsGattCharacteristicFormat(data)
    requires Get(data, "serviceUuid") == Str(VIBRATION_SERVICE_UUID) && Get(data, "characteristicUuid") == Str(GAIN_UUID)
    ensures Process(data) == Normal(GainField(Get(data, "value")))
  {
    VibrationDispatch(data);
    GainBranch(data);
  }

  lemma SampleRateBranch(data: Value)
    requires Get(data, "characteristicUuid") == Str(SAMPLE_RATE_UUID)
    ensures ProcessVibrationService(data) == Normal(SampleRateField(Get(data, "value")))
  {
    DifferAt(SAMPLE_RATE_UUID, DATA_UUID, 7);
    DifferAt(SAMPLE_RATE_UUID, DATA_SET_UUID, 7);
    DifferAt(SAMPLE_RATE_UUID, GAIN_UUID, 7);
  }

  lemma SampleRateReading(data: Value)
    requires Utils.IsGattCharacteristicFormat(data)
    requires Get(data, "serviceUuid") == Str(VIBRATION_SERVICE_UUID) && Get(data, "characteristicUuid") == Str(SAMPLE_RATE_UUID)
    ensures Process(data) == Normal(SampleRateField(Get(data, "value")))
  {
    VibrationDispatch(data);
    SampleRateBranch(data);
  }

  lemma TraceLenBranch(data: Value)
    requires Get(data, "characteristicUuid") == Str(TRACE_LEN_UUID)
    ensures ProcessVibrationService(data) == Normal(NumberOfSamplesField(Get(data, "value")))
  {
    DifferAt(TRACE_LEN_UUID, DATA_UUID, 7);
    DifferAt(TRACE_LEN_UUID, DATA_SET_UUID, 7);
    DifferAt(TRACE_LEN_UUID, GAIN_UUID, 7);
    DifferAt(TRACE_LEN_UUID, SAMPLE_RATE_UUID, 7);
  }

  lemma TraceLenReading(data: Value)
    requires Utils.IsGattCharacteristicFormat(data)
    requires Get(data, "serviceUuid") == Str(VIBRATION_SERVICE_UUID) && Get(data, "characteristicUuid") == Str(TRACE_LEN_UUID)
    ensures Process(data) == Normal(NumberOfSamplesField(Get(data, "value")))
  {
    VibrationDispatch(data);
    TraceLenBranch(data);
  }

  lemma CalibrationBranch(data: Value)
    requires Get(data, "characteristicUuid") == Str(CALIBRATION_UUID)
    ensures ProcessVibrationService(data) == CalibrationField(Get(data, "value"))
  {
    DifferAt(CALIBRATION_UUID, DATA_UUID, 7);
    DifferAt(CALIBRATION_UUID, DATA_SET_UUID, 7);
    DifferAt(CALIBRATION_UUID, GAIN_UUID, 7);
    DifferAt(CALIBRATION_UUID, SAMPLE_RATE_UUID, 7);
    DifferAt(CALIBRATION_UUID, TRACE_LEN_UUID, 7);
    DifferAt(CALIBRATION_UUID, TRIGGER_DELAY_UUID, 7);
  }

  lemma CalibrationReading(data: Value)
    requires Utils.IsGattCharacteristicFormat(data)
    requires Get(data, "serviceUuid") == Str(VIBRATION_SERVICE_UUID) && Get(data, "characteristicUuid") == Str(CALIBRATION_UUID)
    ensures Process(data) == CalibrationField(Get(data, "value"))
  {
    VibrationDispatch(data);
    CalibrationBranch(data);
  }

  lemma AxesBranch(data: Value)
    requires Get(data, "characteristicUuid") == Str(AXES_UUID)
    ensures ProcessVibrationService(data) == Normal(NumberOfAxesField(Get(data, "value")))
  {
    DifferAt(AXES_UUID, DATA_UUID, 7);
    DifferAt(AXES_UUID, DATA_SET_UUID, 7);
    DifferAt(AXES_UUID, GAIN_UUID, 7);
    DifferAt(AXES_UUID, SAMPLE_RATE_UUID, 7);
    DifferAt(AXES_UUID, TRACE_LEN_UUID, 7);
    DifferAt(AXES_UUID, TRIGGER_DELAY_UUID, 7);
    DifferAt(AXES_UUID, CALIBRATION_UUID, 7);
    DifferAt(AXES_UUID, SEQUENCE_UUID, 7);
  }

  lemma AxesReading(data: Value)
    requires Utils.IsGattCharacteristicFormat(data)
    requires Get(data, "serviceUuid") == Str(VIBRATION_SERVICE_UUID) && Get(data, "characteristicUuid") == Str(AXES_UUID)
    ensures Process(data) == Normal(NumberOfAxesField(Get(data, "value")))
  {
    VibrationDispatch(data);
    AxesBranch(data);
  }

  lemma ModeBranch(data: Value)
    requires Get(data, "characteristicUuid") == Str(MODE_UUID)
    ensures ProcessConfigService(data) == Normal(OperatingModeField(Get(data, "value")))
  {
    DifferAt(MODE_UUID, RELEASE_UUID, 7);
  }

  lemma ModeReading(data: Value)
    requires Utils.IsGattCharacteristicFormat(data)
    requires Get(data, "serviceUuid") == Str(CONFIG_SERVICE_UUID) && Get(data, "characteristicUuid") == Str(MODE_UUID)
    ensures Process(data) == Normal(OperatingModeField(Get(data, "value")))
  {
    ConfigDispatch(data);
    ModeBranch(data);
  }

  lemma TemperatureBranch(data: Value)
    requires Get(data, "characteristicUuid") == Str(TEMP_UUID)
    ensures ProcessConfigService(data) == TemperatureField(Get(data, "value"))
  {
    DifferAt(TEMP_UUID, RELEASE_UUID, 7);
    DifferAt(TEMP_UUID, MODE_UUID, 7);
  }

  lemma TemperatureReading(data: Value)
    requires Utils.IsGattCharacteristicFormat(data)
    requires Get(data, "serviceUuid") == Str(CONFIG_SERVICE_UUID) && Get(data, "characteristicUuid") == Str(TEMP_UUID)
    ensures Process(data) == TemperatureField(Get(data, "value"))
  {
    ConfigDispatch(data);
    TemperatureBranch(data);
  }

  lemma BatteryBranch(data: Value)
    requires Get(data, "characteristicUuid") == Str(BATTERY_UUID)
    ensures ProcessConfigService(data) == BatteryVoltageField(Get(data, "value"))
  {
    DifferAt(BATTERY_UUID, RELEASE_UUID, 7);
    DifferAt(BATTERY_UUID, MODE_UUID, 7);
    DifferAt(BATTERY_UUID, TEMP_UUID, 7);
    DifferAt(BATTERY_UUID, TIME_UUID, 7);
    DifferAt(BATTERY_UUID, WAKEUP_TIME_UUID, 7);
    DifferAt(BATTERY_UUID, WAKEUP_INTERVAL_UUID, 7);
    DifferAt(BATTERY_UUID, WAKEUP_LEVEL_UUID, 7);
  }

  lemma BatteryReading(data: Value)
    requires Utils.IsGattCharacteristicFormat(data)
    requires Get(data, "serviceUuid") == Str(CONFIG_SERVICE_UUID) && Get(data, "characteristicUuid") == Str(BATTERY_UUID)
    ensures Process(data) == BatteryVoltageField(Get(data, "value"))
  {
    ConfigDispatch(data);
    BatteryBranch(data);
  }

  lemma ErrorReading(data: Value)
    requires Utils.IsGattCharacteristicFormat(data)
    requires Get(data, "serviceUuid") == Str(SYSTEM_SERVICE_UUID) && Get(data, "characteristicUuid") == Str(ERROR_UUID)
    ensures Process(data) == Normal(ErrorCodeField(Get(data, "value")))
  {
    SystemDispatch(data);
  }

  /**
   * The data characteristic passes the array of sample texts through,
   * whatever it holds, and reads no `value`.
   */
  lemma SamplesPassThrough(data: Value)
    requires Utils.IsGattCharacteristicFormat(data)
    requires Get(data, "serviceUuid") == Str(VIBRATION_SERVICE_UUID) && Get(data, "characteristicUuid") == Str(DATA_UUID)
    ensures Process(data) == Normal(Field("accelerationTimeseries", Get(data, "values")))
  {
    VibrationDispatch(data);
  }

  // ---------------------------------------------------------------------
  // Hexadecimal integers and the lookup tables

  /** Gain, number of axes and error code are the value's hexadecimal digits read as an integer. */
  lemma IntegerFieldsDecoding(z: string)
    requires z != [] && AllHex(z)
    ensures GainField(Str(z)) == Field("gain", Num(HexValue(z) as real))
    ensures NumberOfAxesField(Str(z)) == Field("numberOfAxes", Num(HexValue(z) as real))
    ensures ErrorCodeField(Str(z)) == Field("errorCode", Num(HexValue(z) as real))
  {
    ParseIntOfDigits(z);
  }

  /** The sample-rate table gives a rate exactly for codes 1 to 7, between 256 and 25600 Hz; any other code gives undefined. */
  lemma SampleRateCode(n: nat)
    ensures var rate := Index(SAMPLE_RATES_HZ, Num(n as real));
            && (rate.Num? <==> 1 <= n <= 7)
            && (rate.Num? ==> 256.0 <= rate.n <= 25600.0 && IsInteger(rate))
            && (!rate.Num? ==> rate == Undefined)
  {
    assert Num(n as real).n.Floor == n;
  }

  function Pow2(n: nat): nat
  {
    if n == 0 then 1 else 2 * Pow2(n - 1)
  }

  lemma {:induction false} NumberOfSamplesAt(i: nat)
    requires i < |NUMBERS_OF_SAMPLES|
    ensures NUMBERS_OF_SAMPLES[i] == Num((64 * Pow2(i)) as real)
  {
    if i > 0 {
      NumberOfSamplesAt(i - 1);
    }
  }

  /** The trace-length table gives 64 times 2 to the power `n` samples for a code `n` below 16, and undefined above. */
  lemma NumberOfSamplesCode(n: nat)
    ensures Index(NUMBERS_OF_SAMPLES, Num(n as real)) == if n < 16 then Num((64 * Pow2(n)) as real) else Undefined
  {
    assert IsInteger(Num(n as real)) && Num(n as real).n.Floor == n;
    if n < 16 {
      NumberOfSamplesAt(n);
    }
  }

  /** The operating-mode table names a mode exactly for codes 1 to 5; any other code gives undefined. */
  lemma OperatingModeCode(n: nat)
    ensures var mode := Index(OPERATING_MODES, Num(n as real));
            && (mode.Str? <==> 1 <= n <= 5)
            && (!mode.Str? ==> mode == Undefined)
  {
    assert Num(n as real).n.Floor == n;
  }

  /**
   * Sample rate, trace length and operating mode are the value's
   * hexadecimal digits read as a code and looked up in their table.
   */
  lemma TableFieldsDecoding(z: string)
    requires z != [] && AllHex(z)
    ensures SampleRateField(Str(z)) == Field("sampleRate", Index(SAMPLE_RATES_HZ, Num(HexValue(z) as real)))
    ensures NumberOfSamplesField(Str(z)) == Field("numberOfSamples", Index(NUMBERS_OF_SAMPLES, Num(HexValue(z) as real)))
    ensures OperatingModeField(Str(z)) == Field("operatingMode", Index(OPERATING_MODES, Num(HexValue(z) as real)))
  {
    ParseIntOfDigits(z);
  }

  // ---------------------------------------------------------------------
  // Serial number

  /** Reading the serial number can throw only for a string value holding a line terminator. */
  lemma SerialNumberThrowsOnlyOnLineTerminators(v: Value)
    ensures SerialNumberField(v).Thrown? ==> v.Str? && !NoLineTerminator(v.s)
  {
    Utils.ThrowsOnlyOnLineTerminators(v, 4, Bool(true));
  }

  /**
   * The serial number of a string without line terminators is its text,
   * padded with '0' to at least 8 characters, with its 2-character groups
   * in reverse order; when the padded text has even length, converting the
   * serial number the same way restores it.
   */
  lemma SerialNumberDecoding(s: string)
    requires NoLineTerminator(s) && |PadStart(s, 8)| % 2 == 0
    ensures var r := SerialNumberField(Str(s));
            var serial := Get(r.value, "serialNumber");
            && r.Normal? && serial.Str? && |serial.s| == |PadStart(s, 8)|
            && MatchPairs(serial.s) == Reverse(MatchPairs(PadStart(s, 8)))
            && Utils.ConvertToHexString(serial, 4, Bool(true)) == Normal(Str(PadStart(s, 8)))
  {
    assert 2 * 4 == 8;
    Utils.ReversedHexString(s, 4);
  }

  // ---------------------------------------------------------------------
  // Two-byte readings

  /**
   * A calibration, temperature or battery reading throws exactly when
   * `BufferFrom` throws on the value (a TypeError; in this model every kind
   * but a string or a Buffer) or gives fewer than two bytes (a RangeError).
   */
  lemma TwoByteReadingThrows(v: Value)
    ensures CalibrationField(v).Thrown? <==> BufferFrom(v).Thrown? || |BufferFrom(v).value| < 2
    ensures TemperatureField(v).Thrown? <==> BufferFrom(v).Thrown? || |BufferFrom(v).value| < 2
    ensures BatteryVoltageField(v).Thrown? <==> BufferFrom(v).Thrown? || |BufferFrom(v).value| < 2
  {
  }

  /** A hexadecimal text is read without error exactly when it has at least four digits. */
  lemma HexTextReading(s: string)
    requires AllHex(s)
    ensures CalibrationField(Str(s)).Normal? <==> |s| >= 4
    ensures TemperatureField(Str(s)).Normal? <==> |s| >= 4
    ensures BatteryVoltageField(Str(s)).Normal? <==> |s| >= 4
  {
    TwoByteReadingThrows(Str(s));
  }

  /** A temperature is a multiple of 1/256 of a degree in [-128, 128). */
  lemma TemperatureRange(v: Value)
    ensures var r := TemperatureField(v);
            r.Normal? ==>
              var t := Get(r.value, "temperature");
              t.Num? && -128.0 <= t.n < 128.0 && IsInteger(Num(t.n * 256.0))
  {
    match ReadInt16Value(v)
    case Thrown =>
    case Normal(k) =>
      var t := k as real / 256.0;
      assert t * 256.0 == k as real;
      assert (k as real).Floor == k;
  }

  /** The text written for a 16-bit value reads back as that value. */
  lemma HexOfInt16Reads(k: int)
    requires -32768 <= k < 65536
    ensures k < 32768 ==> ReadInt16Value(Str(BytesToHex(Int16LEBytes(k)))) == Normal(k)
    ensures 0 <= k ==> ReadUInt16Value(Str(BytesToHex(Int16LEBytes(k)))) == Normal(k)
  {
    HexDecodeOfBytesToHex(Int16LEBytes(k));
    Int16LERoundTrip(k);
  }

  /** The temperature read back from the two bytes written for `k` is `k / 256`. */
  lemma TemperatureRoundTrip(k: int)
    requires -32768 <= k < 32768
    ensures TemperatureField(Str(BytesToHex(Int16LEBytes(k)))) == Normal(Field("temperature", Num(k as real / 256.0)))
  {
    HexOfInt16Reads(k);
  }

  /** A battery voltage is a multiple of 1/1000 of a volt in [0, 65.535]. */
  lemma BatteryRange(v: Value)
    ensures var r := BatteryVoltageField(v);
            r.Normal? ==>
              var t := Get(r.value, "batteryVoltage");
              t.Num? && 0.0 <= t.n <= 65.535 && IsInteger(Num(t.n * 1000.0))
  {
    match ReadUInt16Value(v)
    case Thrown =>
    case Normal(k) =>
      var t := k as real / 1000.0;
      assert t * 1000.0 == k as real;
      assert (k as real).Floor == k;
  }

  /** The battery voltage read back from the two bytes written for `k` millivolts is `k / 1000`. */
  lemma BatteryRoundTrip(k: int)
    requires 0 <= k < 65536
    ensures BatteryVoltageField(Str(BytesToHex(Int16LEBytes(k)))) == Normal(Field("batteryVoltage", Num(k as real / 1000.0)))
  {
    HexOfInt16Reads(k);
  }

  /** A calibration is a multiple of 10 in [-327680, 327670]. */
  lemma CalibrationRange(v: Value)
    ensures var r := CalibrationField(v);
            r.Normal? ==>
              var c := Get(r.value, "calibration");
              c.Num? && IsInteger(c) && -327680.0 <= c.n <= 327670.0 && c.n.Floor % 10 == 0
  {
    match ReadInt16Value(v)
    case Thrown =>
    case Normal(k) =>
      assert ((k * 10) as real).Floor == k * 10;
  }

  /** The calibration read back from the two bytes written for `k` is `10 * k`. */
  lemma CalibrationRoundTrip(k: int)
    requires -32768 <= k < 32768
    ensures CalibrationField(Str(BytesToHex(Int16LEBytes(k)))) == Normal(Field("calibration", Num((10 * k) as real)))
  {
    HexOfInt16Reads(k);
    assert 10 * k == k * 10;
  }

  // ---------------------------------------------------------------------
  // The unit-test examples: what each value decodes to, then what `process` gives

  lemma SerialOf78563412()
    ensures SerialNumberField(Str("78563412")) == Normal(Field("serialNumber", Str("12345678")))
  {
    Utils.SerialNumberExample();
  }

  /** A two-digit hexadecimal code is its first digit times 16 plus its second. */
  lemma TwoDigitCode(z: string)
    requires |z| == 2 && IsHexDigit(z[0]) && IsHexDigit(z[1])
    ensures z != [] && AllHex(z)
    ensures HexValue(z) == 16 * HexDigitValue(z[0]) + HexDigitValue(z[1])
  {
    assert AllHex(z);
    var init := z[..1];
    assert init == [z[0]] && init[..0] == [];
    assert HexValue(init) == HexValue(init[..0]) * 16 + HexDigitValue(init[0]);
    assert HexValue(z) == HexValue(init) * 16 + HexDigitValue(z[1]);
  }

  lemma GainOf04()
    ensures GainField(Str("04")) == Field("gain", Num(4.0))
  {
    var z := "04";
    TwoDigitCode(z);
    assert HexValue(z) == 4;
    ParseIntOfDigits(z);
    assert ParseIntValue(Str(z)) == Num(4.0);
  }

  lemma SampleRateOf07()
    ensures SampleRateField(Str("07")) == Field("sampleRate", Num(256.0))
  {
    var z := "07";
    TwoDigitCode(z);
    assert HexValue(z) == 7;
    ParseIntOfDigits(z);
    assert ParseIntValue(Str(z)) == Num(7.0);
    assert Num(7.0).n.Floor == 7;
    assert Index(SAMPLE_RATES_HZ, Num(7.0)) == SAMPLE_RATES_HZ[7];
  }

  lemma NumberOfSamplesOf04()
    ensures NumberOfSamplesField(Str("04")) == Field("numberOfSamples", Num(1024.0))
  {
    var z := "04";
    TwoDigitCode(z);
    assert HexValue(z) == 4;
    ParseIntOfDigits(z);
    assert ParseIntValue(Str(z)) == Num(4.0);
    NumberOfSamplesCode(4);
    assert Pow2(4) == 16;
  }

  /** '8813' is the bytes 0x88, 0x13, so 5000, reported as 50000 by the factor of 10. */
  lemma CalibrationOf8813()
    ensures CalibrationField(Str("8813")) == Normal(Field("calibration", Num(50000.0)))
  {
    assert HexDecode("8813") == [0x88, 0x13] by {
      assert "8813"[2..] == "13";
      assert "13"[2..] == "";
    }
  }

  lemma WakeupMode()
    ensures Index(OPERATING_MODES, Num(2.0)) == Str("Wakeup")
  {
    assert Num(2.0).n.Floor == 2;
  }

  lemma OperatingModeOf02()
    ensures OperatingModeField(Str("02")) == Field("operatingMode", Str("Wakeup"))
  {
    var z := "02";
    TwoDigitCode(z);
    assert HexValue(z) == 2;
    ParseIntOfDigits(z);
    assert ParseIntValue(Str(z)) == Num(2.0);
    WakeupMode();
  }

  lemma TemperatureOfC019()
    ensures TemperatureField(Str("c019")) == Normal(Field("temperature", Num(25.75)))
  {
    assert HexDecode("c019") == [0xc0, 0x19] by {
      assert "c019"[2..] == "19";
      assert "19"[2..] == "";
    }
  }

  lemma BatteryVoltageOf480d()
    ensures BatteryVoltageField(Str("480d")) == Normal(Field("batteryVoltage", Num(3.4)))
  {
    assert HexDecode("480d") == [0x48, 0x0d] by {
      assert "480d"[2..] == "0d";
      assert "0d"[2..] == "";
    }
  }

  lemma ErrorCodeOf45()
    ensures ErrorCodeField(Str("45")) == Field("errorCode", Num(69.0))
  {
    var z := "45";
    TwoDigitCode(z);
    assert HexValue(z) == 69;
    ParseIntOfDigits(z);
    assert ParseIntValue(Str(z)) == Num(69.0);
  }

  /** With no argument `process` gives null. */
  lemma NoInputExample()
    ensures Process(Undefined) == Normal(Null)
  {
  }

  lemma SerialExample()
    ensures Process(Characteristic(SENSOR_INFORMATION_SERVICE_UUID, SERIAL_UUID, Str("78563412")))
            == Normal(Field("serialNumber", Str("12345678")))
  {
    SerialReading(Characteristic(SENSOR_INFORMATION_SERVICE_UUID, SERIAL_UUID, Str("78563412")));
    SerialOf78563412();
  }

  lemma GainExample()
    ensures Process(Characteristic(VIBRATION_SERVICE_UUID, GAIN_UUID, Str("04"))) == Normal(Field("gain", Num(4.0)))
  {
    GainReading(Characteristic(VIBRATION_SERVICE_UUID, GAIN_UUID, Str("04")));
    GainOf04();
  }

  lemma SampleRateExample()
    ensures Process(Characteristic(VIBRATION_SERVICE_UUID, SAMPLE_RATE_UUID, Str("07")))
            == Normal(Field("sampleRate", Num(256.0)))
  {
    SampleRateReading(Characteristic(VIBRATION_SERVICE_UUID, SAMPLE_RATE_UUID, Str("07")));
    SampleRateOf07();
  }

  lemma TraceLenExample()
    ensures Process(Characteristic(VIBRATION_SERVICE_UUID, TRACE_LEN_UUID, Str("04")))
            == Normal(Field("numberOfSamples", Num(1024.0)))
  {
    TraceLenReading(Characteristic(VIBRATION_SERVICE_UUID, TRACE_LEN_UUID, Str("04")));
    NumberOfSamplesOf04();
  }

  lemma CalibrationExample()
    ensures Process(Characteristic(VIBRATION_SERVICE_UUID, CALIBRATION_UUID, Str("8813")))
            == Normal(Field("calibration", Num(50000.0)))
  {
    CalibrationReading(Characteristic(VIBRATION_SERVICE_UUID, CALIBRATION_UUID, Str("8813")));
    CalibrationOf8813();
  }

  lemma OperatingModeExample()
    ensures Process(Characteristic(CONFIG_SERVICE_UUID, MODE_UUID, Str("02")))
            == Normal(Field("operatingMode", Str("Wakeup")))
  {
    ModeReading(Characteristic(CONFIG_SERVICE_UUID, MODE_UUID, Str("02")));
    OperatingModeOf02();
  }

  lemma TemperatureExample()
    ensures Process(Characteristic(CONFIG_SERVICE_UUID, TEMP_UUID, Str("c019")))
            == Normal(Field("temperature", Num(25.75)))
  {
    TemperatureReading(Characteristic(CONFIG_SERVICE_UUID, TEMP_UUID, Str("c019")));
    TemperatureOfC019();
  }

  lemma BatteryExample()
    ensures Process(Characteristic(CONFIG_SERVICE_UUID, BATTERY_UUID, Str("480d")))
            == Normal(Field("batteryVoltage", Num(3.4)))
  {
    BatteryReading(Characteristic(CONFIG_SERVICE_UUID, BATTERY_UUID, Str("480d")));
    BatteryVoltageOf480d();
  }

  lemma ErrorExample()
    ensures Process(Characteristic(SYSTEM_SERVICE_UUID, ERROR_UUID, Str("45"))) == Normal(Field("errorCode", Num(69.0)))
  {
    ErrorReading(Characteristic(SYSTEM_SERVICE_UUID, ERROR_UUID, Str("45")));
    ErrorCodeOf45();
  }
}
