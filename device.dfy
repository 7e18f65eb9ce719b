/** What every entity platform repeats: the model shown in `device_info`, the firmware
    version parsed from `modelVersion`, and the product image derived from the model
    name. The source has one copy of each per platform (`sensor.py`, `camera.py`,
    `button.py`, `switch.py`, `number.py`); the copies are identical, and each is this one
    function. */
module Device {
  import opened Base
  import opened Json
  import Text

  // ---------------------------------------------------------------- model precedence

  const DefaultModel: string := "Creality Printer"

  /** The model `device_info` shows: `model`, else `printerModel`, else `detected_model`,
      else "Creality Printer"; also the default when there is no data. */
  function DeviceModel(data: Option<Frame>): (m: Value)
    ensures !HasData(data) ==> m == Str(DefaultModel)
    ensures HasData(data) && "model" in data.value ==> m == data.value["model"]
    ensures HasData(data) && "model" !in data.value && "printerModel" in data.value ==>
              m == data.value["printerModel"]
    ensures HasData(data) && "model" !in data.value && "printerModel" !in data.value ==>
              m == Get(data.value, "detected_model", Str(DefaultModel))
  {
    if !HasData(data) then Str(DefaultModel)
    else if "model" in data.value then data.value["model"]
    else if "printerModel" in data.value then data.value["printerModel"]
    else if "detected_model" in data.value then data.value["detected_model"]
    else Str(DefaultModel)
  }

  // ---------------------------------------------------------------- firmware version

  const DwinMarker: string := "DWIN sw ver:"
  const SwMarker: string := "sw ver:"

  /** What a part yields: `marker` removed everywhere, white space stripped. */
  function Remainder(part: string, marker: string): string
    requires marker != []
  {
    Text.Strip(Text.Replace(part, marker, ""))
  }

  /** The part contains `marker` and something is left once it is removed. */
  predicate Hit(part: string, marker: string)
    requires marker != []
  {
    Text.Contains(part, marker) && Remainder(part, marker) != ""
  }

  /** The index of the first part that is a hit, or the number of parts when none is:
      the search loops of `_parse_firmware_version`, which return from the first hit. */
  function FirstHit(parts: seq<string>, marker: string): (k: nat)
    requires marker != []
    ensures k <= |parts|
    ensures forall i :: 0 <= i < k ==> !Hit(parts[i], marker)
    ensures k < |parts| ==> Hit(parts[k], marker)
    decreases |parts|
  {
    if |parts| == 0 || Hit(parts[0], marker) then 0
    else
      var k := FirstHit(parts[1..], marker);
      assert forall i :: 1 <= i <= k ==> parts[i] == parts[1..][i - 1];
      1 + k
  }

  /** `_parse_firmware_version` on a non-empty string: the remainder of the first
      `;`-separated part that holds a DWIN software version, else of the first that holds
      any software version, else the string itself. */
  function ParseFirmwareVersion(raw: string): string {
    var parts := Text.Split(raw, ';');
    var d := FirstHit(parts, DwinMarker);
    if d < |parts| then Remainder(parts[d], DwinMarker)
    else
      var s := FirstHit(parts, SwMarker);
      if s < |parts| then Remainder(parts[s], SwMarker) else raw
  }

  /** The parser returns the remainder of the first DWIN hit. */
  lemma FirmwareVersionDwin(raw: string, i: nat)
    requires var parts := Text.Split(raw, ';');
      && i < |parts| && Hit(parts[i], DwinMarker)
      && forall j :: 0 <= j < i ==> !Hit(parts[j], DwinMarker)
    ensures ParseFirmwareVersion(raw) == Remainder(Text.Split(raw, ';')[i], DwinMarker)
  {
    var parts := Text.Split(raw, ';');
    FirstHitUnique(parts, DwinMarker, i);
  }

  /** Without a DWIN hit, the parser returns the remainder of the first software-version hit. */
  lemma FirmwareVersionSw(raw: string, i: nat)
    requires var parts := Text.Split(raw, ';');
      && (forall j :: 0 <= j < |parts| ==> !Hit(parts[j], DwinMarker))
      && i < |parts| && Hit(parts[i], SwMarker)
      && forall j :: 0 <= j < i ==> !Hit(parts[j], SwMarker)
    ensures ParseFirmwareVersion(raw) == Remainder(Text.Split(raw, ';')[i], SwMarker)
  {
    var parts := Text.Split(raw, ';');
    FirstHitNone(parts, DwinMarker);
    FirstHitUnique(parts, SwMarker, i);
  }

  /** Without any hit, the parser returns the raw string. */
  lemma FirmwareVersionRaw(raw: string)
    requires forall part :: part in Text.Split(raw, ';') ==> !Hit(part, DwinMarker) && !Hit(part, SwMarker)
    ensures ParseFirmwareVersion(raw) == raw
  {
    var parts := Text.Split(raw, ';');
    forall j | 0 <= j < |parts|
      ensures !Hit(parts[j], DwinMarker) && !Hit(parts[j], SwMarker)
    {
      assert parts[j] in parts;
    }
    FirstHitNone(parts, DwinMarker);
    FirstHitNone(parts, SwMarker);
  }

  lemma FirstHitUnique(parts: seq<string>, marker: string, i: nat)
    requires marker != []
    requires i < |parts| && Hit(parts[i], marker) && forall j :: 0 <= j < i ==> !Hit(parts[j], marker)
    ensures FirstHit(parts, marker) == i
  {
    var k := FirstHit(parts, marker);
    assert k <= i;
  }

  lemma FirstHitNone(parts: seq<string>, marker: string)
    requires marker != []
    requires forall j :: 0 <= j < |parts| ==> !Hit(parts[j], marker)
    ensures FirstHit(parts, marker) == |parts|
  {
  }

  /** A version the parser picks from a part is never empty and has no surrounding white
      space; without a hit it is the raw string. */
  lemma FirmwareVersionShape(raw: string)
    ensures var v := ParseFirmwareVersion(raw);
      v == raw || (v != "" && !Text.IsPySpace(v[0]) && !Text.IsPySpace(v[|v| - 1]))
  {
    var parts := Text.Split(raw, ';');
    if FirstHit(parts, DwinMarker) < |parts| {
      HitShape(parts, DwinMarker);
    } else if FirstHit(parts, SwMarker) < |parts| {
      HitShape(parts, SwMarker);
    }
  }

  /** The remainder of a first hit is not empty and has no surrounding white space. */
  lemma HitShape(parts: seq<string>, marker: string)
    requires marker != [] && FirstHit(parts, marker) < |parts|
    ensures var v := Remainder(parts[FirstHit(parts, marker)], marker);
      v != "" && !Text.IsPySpace(v[0]) && !Text.IsPySpace(v[|v| - 1])
  {
    StrippedEnds(Text.Replace(parts[FirstHit(parts, marker)], marker, ""));
  }

  lemma StrippedEnds(t: string)
    ensures var v := Text.Strip(t); v == "" || (!Text.IsPySpace(v[0]) && !Text.IsPySpace(v[|v| - 1]))
  {
  }

  /** The example of the source's comment yields "1.3.3.46". */
  lemma FirmwareVersionExample(raw: string)
    requires raw == "printer hw ver:" + ";" + ("printer sw ver:" + ";" + ("DWIN hw ver:CR4CU220812S11"
                  + ";" + ("DWIN sw ver:1.3.3.46" + ";" + "")))
    ensures ParseFirmwareVersion(raw) == "1.3.3.46"
  {
    var p0, p1, p2, p3 := "printer hw ver:", "printer sw ver:", "DWIN hw ver:CR4CU220812S11", "DWIN sw ver:1.3.3.46";
    ExampleSplit(raw, p0, p1, p2, p3);
    ExampleMiss(p0);
    ExampleMiss(p1);
    ExampleMiss(p2);
    ExampleHit(p3, "1.3.3.46");
    FirstDwinOfFive(raw, p0, p1, p2, p3);
  }

  lemma FirstDwinOfFive(raw: string, p0: string, p1: string, p2: string, p3: string)
    requires Text.Split(raw, ';') == [p0, p1, p2, p3, []]
    requires !Hit(p0, DwinMarker) && !Hit(p1, DwinMarker) && !Hit(p2, DwinMarker) && Hit(p3, DwinMarker)
    ensures ParseFirmwareVersion(raw) == Remainder(p3, DwinMarker)
  {
    var parts := Text.Split(raw, ';');
    assert forall j :: 0 <= j < 3 ==> !Hit(parts[j], DwinMarker) by {
      forall j | 0 <= j < 3
        ensures !Hit(parts[j], DwinMarker)
      {
        assert parts[j] == [p0, p1, p2][j];
      }
    }
    FirmwareVersionDwin(raw, 3);
  }

  lemma ExampleSplit(raw: string, p0: string, p1: string, p2: string, p3: string)
    requires ';' !in p0 && ';' !in p1 && ';' !in p2 && ';' !in p3
    requires raw == p0 + ";" + (p1 + ";" + (p2 + ";" + (p3 + ";" + "")))
    ensures Text.Split(raw, ';') == [p0, p1, p2, p3, []]
  {
    SplitThree(p1, p2, p3);
    Text.SplitAfter(p0, p1 + [';'] + (p2 + [';'] + (p3 + [';'] + [])), ';');
  }

  lemma SplitThree(p1: string, p2: string, p3: string)
    requires ';' !in p1 && ';' !in p2 && ';' !in p3
    ensures Text.Split(p1 + [';'] + (p2 + [';'] + (p3 + [';'] + [])), ';') == [p1, p2, p3, []]
  {
    var r3 := p3 + [';'] + [];
    var r2 := p2 + [';'] + r3;
    Text.SplitNoSeparator([], ';');
    Text.SplitAfter(p3, [], ';');
    Text.SplitAfter(p2, r3, ';');
    assert Text.Split(r2, ';') == [p2, p3, []];
    Text.SplitAfter(p1, r2, ';');
  }

  /** The example's first three parts do not hold the marker. */
  lemma ExampleMiss(part: string)
    requires part == "printer hw ver:" || part == "printer sw ver:"
             || part == "DWIN hw ver:CR4CU220812S11"
    ensures !Hit(part, DwinMarker)
  {
    if part == "printer sw ver:" {
      ExampleMisses(part, 'D');
    } else {
      ExampleMisses(part, 's');
    }
  }

  /** A part lacking one of the marker's characters does not hold the marker. */
  lemma ExampleMisses(part: string, c: char)
    requires c in DwinMarker && c !in part
    ensures !Hit(part, DwinMarker)
  {
    Text.NotContains(part, DwinMarker, c);
  }

  lemma ExampleHit(part: string, v: string)
    requires part == "DWIN sw ver:1.3.3.46" && v == "1.3.3.46"
    ensures Hit(part, DwinMarker) && Remainder(part, DwinMarker) == v
  {
    assert part == DwinMarker + v;
    assert Text.OccursAt(part, DwinMarker, 0);
    assert part[..|DwinMarker|] == DwinMarker;
    assert part[|DwinMarker|..] == v;
    assert Text.Replace(part, DwinMarker, "") == v;
    Text.StripUnchanged(v, Text.IsPySpace);
  }

  /** `CrealityFirmwareSensor.state` and `_parse_firmware_version` for the value under
      `key`: "Unknown" without data or for a missing or falsy value; a string is parsed; any
      other value has no `split`, and the `AttributeError` is swallowed, so it is returned
      as it is. */
  function FirmwareVersion(data: Option<Frame>, key: string): (r: Value)
    ensures !HasData(data) || key !in data.value || !Truthy(data.value[key]) ==> r == Str("Unknown")
    ensures HasData(data) && key in data.value && data.value[key].Str? && data.value[key].s != "" ==>
              r == Str(ParseFirmwareVersion(data.value[key].s))
    ensures HasData(data) && key in data.value && Truthy(data.value[key]) && !data.value[key].Str? ==>
              r == data.value[key]
  {
    if !HasData(data) then Str("Unknown")
    else
      var raw := Get(data.value, key, Str(""));
      if !Truthy(raw) then Str("Unknown")
      else match raw
        case Str(s) => Str(ParseFirmwareVersion(s))
        case _ => raw
  }

  // ---------------------------------------------------------------- product image

  const ImageDirectory: string := "custom_components/creality_control/images/"

  /** `model.replace(" ", "_").replace("-", "_").replace("(", "").replace(")", "").upper()`,
      each one-character `replace` taken character by character. */
  function CleanModel(model: string): string {
    Text.UpperAscii(Text.ReplaceChar(Text.ReplaceChar(Text.ReplaceChar(Text.ReplaceChar(
      model, ' ', "_"), '-', "_"), '(', ""), ')', ""))
  }

  /** `CleanModel` is the chain of Python `replace` calls. */
  lemma CleanModelIsReplace(model: string)
    ensures CleanModel(model)
         == Text.UpperAscii(Text.Replace(Text.Replace(Text.Replace(Text.Replace(
              model, " ", "_"), "-", "_"), "(", ""), ")", ""))
  {
    var a := Text.Replace(model, " ", "_");
    Text.ReplaceCharIsReplace(model, ' ', "_");
    var b := Text.Replace(a, "-", "_");
    Text.ReplaceCharIsReplace(a, '-', "_");
    var c := Text.Replace(b, "(", "");
    Text.ReplaceCharIsReplace(b, '(', "");
    Text.ReplaceCharIsReplace(c, ')', "");
  }

  /** The characters a cleaned name never holds. */
  predicate Clean(c: char) {
    c != ' ' && c != '-' && c != '(' && c != ')' && !('a' <= c <= 'z')
  }

  lemma CleanModelShape(model: string)
    ensures forall i :: 0 <= i < |CleanModel(model)| ==> Clean(CleanModel(model)[i])
  {
    var d := Text.ReplaceChar(Text.ReplaceChar(Text.ReplaceChar(Text.ReplaceChar(
      model, ' ', "_"), '-', "_"), '(', ""), ')', "");
    assert forall x :: x in d ==> x != ' ' && x != '-' && x != '(' && x != ')';
    forall i | 0 <= i < |d|
      ensures Clean(Text.UpperChar(d[i]))
    {
      assert d[i] in d;
    }
  }

  /** Cleaning a cleaned name changes nothing. */
  lemma CleanModelIdempotent(model: string)
    ensures CleanModel(CleanModel(model)) == CleanModel(model)
  {
    var c := CleanModel(model);
    CleanModelShape(model);
    assert ' ' !in c && '-' !in c && '(' !in c && ')' !in c;
    assert Text.UpperAscii(c) == c;
  }

  /** The model-to-file table: every entry maps a name to itself except "K1SE". */
  const ImageNames: map<string, string> := map[
    "K1SE" := "K1_SE", "K1" := "K1", "K1_MAX" := "K1_MAX", "K1C" := "K1C",
    "ENDER_3_V3_SE" := "ENDER_3_V3_SE", "ENDER_3_V3_KE" := "ENDER_3_V3_KE",
    "ENDER_3_V3" := "ENDER_3_V3", "ENDER_3_S1_PRO" := "ENDER_3_S1_PRO",
    "ENDER_3_S1" := "ENDER_3_S1", "ENDER_3_MAX_NEO" := "ENDER_3_MAX_NEO",
    "ENDER_5_S1" := "ENDER_5_S1", "ENDER_5_PRO" := "ENDER_5_PRO", "ENDER_7" := "ENDER_7",
    "ENDER_3_V2" := "ENDER_3_V2", "ENDER_3_PRO" := "ENDER_3_PRO", "ENDER_3" := "ENDER_3",
    "ENDER_5" := "ENDER_5", "CR_10" := "CR_10", "CR_10S" := "CR_10S",
    "CR_10S_PRO" := "CR_10S_PRO", "HALOT_ONE" := "HALOT_ONE",
    "HALOT_ONE_PLUS" := "HALOT_ONE_PLUS", "HALOT_SKY" := "HALOT_SKY",
    "HALOT_SKY_PRO" := "HALOT_SKY_PRO", "HALOT_MAGE" := "HALOT_MAGE",
    "HALOT_MAGE_PRO" := "HALOT_MAGE_PRO", "HALOT_MAGE_S" := "HALOT_MAGE_S",
    "HALOT_MAGE_8K" := "HALOT_MAGE_8K", "HALOT_MAGE_8K_PRO" := "HALOT_MAGE_8K_PRO",
    "HALOT_MAGE_8K_S" := "HALOT_MAGE_8K_S"]

  /** `model_mapping.get(clean, clean)`. */
  function ImageName(clean: string): (name: string)
    ensures clean == "K1SE" ==> name == "K1_SE"
    ensures clean != "K1SE" ==> name == clean
  {
    if clean in ImageNames then ImageNames[clean] else clean
  }

  /** `_get_product_image(model)`: `None` for a falsy model; for a string, the image file
      named after its cleaned form; any other truthy value has no `replace` and raises. */
  function ProductImage(model: Value): (r: Result<Option<string>, PyError>)
    ensures !Truthy(model) <==> r == Ok(None)
    ensures model.Str? && model.s != "" ==>
              r == Ok(Some(ImageDirectory + ImageName(CleanModel(model.s)) + ".webp"))
    ensures Truthy(model) && !model.Str? ==> r == Err(AttributeError)
  {
    if !Truthy(model) then Ok(None)
    else match model
      case Str(s) => Ok(Some(ImageDirectory + ImageName(CleanModel(s)) + ".webp"))
      case _ => Err(AttributeError)
  }

  /** "K1SE" is the one table entry that gains an underscore. */
  lemma ProductImageK1SE(model: string)
    requires model == "K1SE"
    ensures ProductImage(Str(model)) == Ok(Some(ImageDirectory + "K1_SE" + ".webp"))
  {
    CleanK1SE(model);
    assert ImageName(model) == "K1_SE";
  }

  lemma CleanK1SE(model: string)
    requires model == "K1SE"
    ensures CleanModel(model) == model
  {
    assert ' ' !in model && '-' !in model && '(' !in model && ')' !in model;
    assert Text.UpperAscii(model) == model;
  }

  // ---------------------------------------------------------------- device_info

  /** The `product_image` entry: absent (switch and number), or present with the image. */
  datatype ImageEntry = NoImageEntry | ImageEntry(image: Option<string>)

  /** The `device_info` dict. `name` is `f"Creality {model}"`, `None` where the model leaves
      `str(model)` unrendered. */
  datatype DeviceInfo = DeviceInfo(
    identifier: string, name: Option<string>, manufacturer: string, model: Value,
    swVersion: Value, suggestedArea: string, configurationUrl: string, productImage: ImageEntry)

  /** `device_info` for the printer at `host` showing `model`; with `withImage`, the
      product image is looked up first, and its failure is the property's. */
  function Info(host: string, data: Option<Frame>, model: Value, withImage: bool)
    : (r: Result<DeviceInfo, PyError>)
    ensures withImage && ProductImage(model).Err? <==> r.Err?
    ensures r.Ok? ==>
              && r.value.identifier == host && r.value.manufacturer == "Creality"
              && r.value.model == model && r.value.suggestedArea == "Workshop"
              && r.value.swVersion == FirmwareVersion(data, "modelVersion")
              && r.value.configurationUrl == "http://" + host + ":80"
              && (model.Str? ==> r.value.name == Some("Creality " + model.s))
              && r.value.productImage == (if withImage then ImageEntry(ProductImage(model).value) else NoImageEntry)
  {
    var name := match PyStr(model) case Some(s) => Some("Creality " + s) case None => None;
    var info := DeviceInfo(host, name, "Creality", model, FirmwareVersion(data, "modelVersion"),
                           "Workshop", "http://" + host + ":80", NoImageEntry);
    if !withImage then Ok(info)
    else match ProductImage(model)
      case Err(e) => Err(e)
      case Ok(image) => Ok(info.(productImage := ImageEntry(image)))
  }

  /** The `device_info` every entity builds: the model by `DeviceModel`'s precedence, with
      the product image for sensors and buttons and without it for switches and numbers. */
  function PrinterInfo(host: string, data: Option<Frame>, withImage: bool): (r: Result<DeviceInfo, PyError>)
    ensures r.Err? <==> withImage && ProductImage(DeviceModel(data)).Err?
    ensures r.Ok? ==> r.value.model == DeviceModel(data) && r.value.identifier == host
    ensures r.Ok? && !withImage ==> r.value.productImage == NoImageEntry
  {
    Info(host, data, DeviceModel(data), withImage)
  }

  /** Without data the device is the default printer, with an unknown firmware version. */
  lemma DefaultPrinterInfo(host: string, withImage: bool)
    ensures var r := PrinterInfo(host, None, withImage);
      && r.Ok? && r.value.name == Some("Creality " + DefaultModel)
      && r.value.swVersion == Str("Unknown")
  {
    assert ProductImage(Str(DefaultModel)).Ok?;
  }
}
