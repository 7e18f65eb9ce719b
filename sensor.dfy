/** The sensor platform: what `CrealitySensor`, `CrealityTimeLeftSensor` and
    `CrealityFirmwareSensor` show for the coordinator's data, their identities, and their
    `device_info`. */
module Sensor {
  import opened Base
  import opened Json
  import Text
  import Device
  import Integration

  // ---------------------------------------------------------------- identity

  /** `f"{host}_{data_key}"`. */
  function UniqueId(host: string, key: string): (id: string)
    ensures |id| == |host| + 1 + |key| && id[..|host|] == host && id[|host|] == '_'
    ensures id[|host| + 1..] == key
  {
    host + "_" + key
  }

  /** Two sensors of one printer share an id only when they read the same key. */
  lemma UniqueIdInjective(host: string, k1: string, k2: string)
    ensures UniqueId(host, k1) == UniqueId(host, k2) <==> k1 == k2
  {
    if UniqueId(host, k1) == UniqueId(host, k2) {
      assert k1 == UniqueId(host, k1)[|host| + 1..];
    }
  }

  /** `f"Creality {name_suffix}"`. */
  function Name(suffix: string): (n: string)
    ensures |n| == 9 + |suffix| && n[..9] == "Creality " && n[9..] == suffix
  {
    "Creality " + suffix
  }

  // ---------------------------------------------------------------- state

  /** What `CrealitySensor.state` returns: a value of the data, or the legacy progress
      percentage computed from the current and total layer counts. */
  datatype Reading =
    | Reading(v: Value)
    | LayerProgress(curLayer: Value, totalLayers: Value)

  /** The legacy calculation's inputs: `curSliceLayer` and `sliceLayerCount`, each 0 when
      missing. */
  function LegacyProgress(frame: Frame): (r: Reading)
    ensures r.LayerProgress?
  {
    LayerProgress(Get(frame, "curSliceLayer", Int(0)), Get(frame, "sliceLayerCount", Int(0)))
  }

  /** `CrealitySensor.state` for `data_key == key`. */
  function State(data: Option<Frame>, key: string): (r: Reading)
    ensures !HasData(data) ==> r == Reading(Str("Unknown"))
    ensures HasData(data) && key == "printProgress" ==>
              r == Reading(Get(data.value, "printProgress", Int(0)))
    ensures HasData(data) && key == "progress" && "printProgress" in data.value ==>
              r == Reading(data.value["printProgress"])
    ensures HasData(data) && key == "progress" && "printProgress" !in data.value ==>
              r == LegacyProgress(data.value)
    ensures HasData(data) && key == "legacy_progress" ==> r == LegacyProgress(data.value)
    ensures HasData(data) && key !in {"progress", "printProgress", "legacy_progress"} ==>
              r == Reading(Get(data.value, key, Str("Unknown")))
  {
    if !HasData(data) then Reading(Str("Unknown"))
    else if key == "progress" then
      if "printProgress" in data.value then Reading(data.value["printProgress"])
      else LegacyProgress(data.value)
    else if key == "printProgress" then Reading(Get(data.value, "printProgress", Int(0)))
    else if key == "legacy_progress" then LegacyProgress(data.value)
    else Reading(Get(data.value, key, Str("Unknown")))
  }

  /** Where the K1 format reports `printProgress`, the "progress" sensor and the
      "printProgress" sensor agree. */
  lemma ProgressFollowsPrintProgress(data: Option<Frame>)
    requires HasData(data) && "printProgress" in data.value
    ensures State(data, "progress") == State(data, "printProgress")
  {
  }

  /** An ordinary sensor shows the value under its key, or "Unknown". */
  lemma OrdinaryState(data: Option<Frame>, key: string)
    requires key != "progress" && key != "printProgress" && key != "legacy_progress"
    ensures State(data, key) == Reading(if HasData(data) && key in data.value then data.value[key]
                                        else Str("Unknown"))
  {
  }

  // ---------------------------------------------------------------- time left

  const SecondsPerDay: nat := 86400

  /** The largest day count `timedelta` accepts. */
  const MaxDays: nat := 999999999

  /** `"%02d" % k`. */
  function Pad2(k: nat): (s: string)
    requires k < 100
    ensures |s| == 2 && Text.AllDigits(s)
  {
    [Text.DigitChar(k / 10), Text.DigitChar(k % 10)]
  }

  lemma Pad2Value(k: nat)
    requires k < 100
    ensures Text.DigitsValue(Pad2(k)) == k
  {
    var s := Pad2(k);
    assert s[..|s| - 1] == [s[0]];
    assert [s[0]][..0] == [];
    assert Text.DigitsValue([s[0]]) == k / 10;
  }

  /** `"%d:%02d:%02d" % (hh, mm, ss)` for the seconds of one day. */
  function Clock(secs: nat): string
    requires secs < SecondsPerDay
  {
    Text.NatToDecimal(secs / 3600) + ":" + Pad2(secs % 3600 / 60) + ":" + Pad2(secs % 60)
  }

  /** " day" with the plural `timedelta` uses for every count but 1 and -1. */
  function DayWord(days: int): string {
    if days == 1 || days == -1 then " day" else " days"
  }

  /** `str(timedelta(seconds=n))`: whole days (rounded down) as a prefix when there are any,
      then the clock of the remaining seconds; `OverflowError` beyond 999999999 days. */
  function TimedeltaStr(n: int): (r: Result<string, PyError>)
    ensures r.Err? <==> n / SecondsPerDay > MaxDays || n / SecondsPerDay < -(MaxDays as int)
    ensures r.Err? ==> r.error == OverflowError
  {
    var days := n / SecondsPerDay;
    var secs := n % SecondsPerDay;
    if days > MaxDays || days < -(MaxDays as int) then Err(OverflowError)
    else if days == 0 then Ok(Clock(secs))
    else Ok(Text.IntToDecimal(days) + DayWord(days) + ", " + Clock(secs))
  }

  /** Less than a day is the bare clock. */
  lemma TimedeltaUnderADay(n: int)
    requires 0 <= n < SecondsPerDay
    ensures TimedeltaStr(n) == Ok(Clock(n))
  {
  }

  /** Whole days come first, in the singular only for one day. */
  lemma TimedeltaDays(n: int)
    requires SecondsPerDay <= n < (MaxDays + 1) * SecondsPerDay
    ensures TimedeltaStr(n)
         == Ok(Text.NatToDecimal(n / SecondsPerDay) + (if n < 2 * SecondsPerDay then " day" else " days")
               + ", " + Clock(n % SecondsPerDay))
  {
  }

  /** A negative count borrows a whole day: one second short of zero is "-1 day, 23:59:59". */
  lemma TimedeltaNegative(n: int)
    requires -(SecondsPerDay as int) <= n < 0
    ensures TimedeltaStr(n) == Ok("-1 day, " + Clock(n + SecondsPerDay))
  {
    assert n / SecondsPerDay == -1;
    assert n % SecondsPerDay == n + SecondsPerDay;
    assert Text.IntToDecimal(-1) + DayWord(-1) + ", " == "-1 day, ";
  }

  /** The clock reads back: its three `:`-separated fields are decimal numbers, minutes and
      seconds two digits each and below 60, and together they make up the seconds. */
  lemma ClockFields(secs: nat)
    requires secs < SecondsPerDay
    ensures var f := Text.Split(Clock(secs), ':');
      && |f| == 3 && Text.AllDigits(f[0]) && Text.AllDigits(f[1]) && Text.AllDigits(f[2])
      && |f[1]| == 2 && |f[2]| == 2
      && Text.DigitsValue(f[1]) < 60 && Text.DigitsValue(f[2]) < 60
      && 3600 * Text.DigitsValue(f[0]) + 60 * Text.DigitsValue(f[1]) + Text.DigitsValue(f[2]) == secs
  {
    var h, m, s := secs / 3600, secs % 3600 / 60, secs % 60;
    var a, b, c := Text.NatToDecimal(h), Pad2(m), Pad2(s);
    NoColon(a);
    NoColon(b);
    NoColon(c);
    assert Clock(secs) == a + [':'] + (b + [':'] + c);
    Text.SplitNoSeparator(c, ':');
    Text.SplitAfter(b, c, ':');
    Text.SplitAfter(a, b + [':'] + c, ':');
    Text.DecimalRoundTrip(h);
    Pad2Value(m);
    Pad2Value(s);
  }

  lemma NoColon(s: string)
    requires Text.AllDigits(s)
    ensures ':' !in s
  {
    forall i | 0 <= i < |s|
      ensures s[i] != ':'
    {
      assert Text.IsDigit(s[i]);
    }
  }

  /** `CrealityTimeLeftSensor.state`: "00:00:00" without data, else the `timedelta` text
      of `int()` of the value under `key` (0 when missing); `int()`'s error propagates. */
  function TimeLeftState(data: Option<Frame>, key: string): (r: Result<string, PyError>)
    ensures !HasData(data) ==> r == Ok("00:00:00")
    ensures HasData(data) && key in data.value && data.value[key].Int?
              && 0 <= data.value[key].i < SecondsPerDay ==>
              r == Ok(Clock(data.value[key].i))
    ensures HasData(data) && IntOf(Get(data.value, key, Int(0))).Err? ==>
              r == Err(IntOf(Get(data.value, key, Int(0))).error)
  {
    if !HasData(data) then Ok("00:00:00")
    else match IntOf(Get(data.value, key, Int(0)))
      case Err(e) => Err(e)
      case Ok(n) => TimedeltaStr(n)
  }

  /** With data but no value, the time left is zero: "0:00:00", not the "00:00:00" shown
      without data. */
  lemma TimeLeftMissing(data: Option<Frame>, key: string)
    requires HasData(data) && key !in data.value
    ensures TimeLeftState(data, key) == Ok("0:00:00")
  {
    assert IntOf(Get(data.value, key, Int(0))) == Ok(0);
    assert Text.NatToDecimal(0) == "0";
    assert Pad2(0) == "00";
    assert Clock(0) == "0" + ":" + "00" + ":" + "00";
    assert Clock(0) == "0:00:00";
    TimedeltaUnderADay(0);
    assert TimeLeftState(data, key) == TimedeltaStr(0);
  }

  // ---------------------------------------------------------------- device_info

  /** The three sensor classes. */
  datatype Kind = Plain | TimeLeft | Firmware

  /** `device_info` as the source has it: only `CrealityFirmwareSensor` defines
      `_get_product_image`, so on the other two classes the property raises
      `AttributeError`. */
  function DeviceInfoAsWritten(kind: Kind, host: string, data: Option<Frame>)
    : (r: Result<Device.DeviceInfo, PyError>)
    ensures kind != Firmware ==> r == Err(AttributeError)
    ensures kind == Firmware ==> r == Device.PrinterInfo(host, data, true)
  {
    if kind == Firmware then Device.Info(host, data, Device.DeviceModel(data), true)
    else Err(AttributeError)
  }

  /** Most sensors have no device: a plain sensor fails even without data, where the
      intended result is the default device. */
  lemma PlainDeviceInfoFails(host: string)
    ensures DeviceInfoAsWritten(Plain, host, None).Err?
    ensures Device.PrinterInfo(host, None, true).Ok?
  {
    Device.DefaultPrinterInfo(host, true);
  }

  /** A frame that names no model: after enrichment the device shows the model inferred
      from the port. */
  lemma EnrichedDeviceModel(frame: Frame, port: int)
    requires "model" !in frame && "printerModel" !in frame
    requires Integration.InferredModel(port).Some?
    ensures Device.DeviceModel(Some(Integration.Enrich(frame, port)))
         == Str(Integration.InferredModel(port).value)
  {
    var r := Integration.Enrich(frame, port);
    assert "detected_model" in r;
    assert "model" !in r && "printerModel" !in r;
  }
}
