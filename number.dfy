/** The number platform: the nozzle and bed target temperatures, their declared ranges,
    the value shown and the value set. Setting goes to the coordinator's
    `send_temp_command`, which the coordinator does not define; the model returns the
    arguments it is given. */
module Number {
  import opened Base
  import opened Json

  datatype TempType = Nozzle | Bed

  /** The entities `async_setup_entry` creates, in order. */
  const Numbers: seq<TempType> := [Nozzle, Bed]

  /** `temp_type` as the source spells it. */
  function TypeName(t: TempType): string {
    match t
    case Nozzle => "nozzle"
    case Bed => "bed"
  }

  /** The declared range: minimum, maximum, step and unit. */
  datatype Range = Range(min: int, max: int, step: int, unit: string)

  function DeclaredRange(t: TempType): (r: Range)
    ensures r.min == 0 && r.step == 1 && r.unit == "°C"
    ensures t == Nozzle ==> r.max == 300
    ensures t == Bed ==> r.max == 150
  {
    match t
    case Nozzle => Range(0, 300, 1, "°C")
    case Bed => Range(0, 150, 1, "°C")
  }

  /** The key of the frame that holds the target temperature. */
  function TargetKey(t: TempType): string {
    match t
    case Nozzle => "targetNozzleTemp"
    case Bed => "targetBedTemp0"
  }

  /** `f"{host}_temp_{temp_type}"`. */
  function UniqueId(host: string, t: TempType): (id: string)
    ensures |id| > |host| + 6 && id[..|host| + 6] == host + "_temp_"
  {
    host + "_temp_" + TypeName(t)
  }

  lemma UniqueIdsDistinct(host: string)
    ensures UniqueId(host, Nozzle) != UniqueId(host, Bed)
  {
    assert UniqueId(host, Nozzle)[|host| + 6] == 'n';
    assert UniqueId(host, Bed)[|host| + 6] == 'b';
  }

  /** What `float(v)` gives, as far as the model computes it: the number for ints, booleans
      and floats; a string is kept as the text `float()` would parse. */
  datatype Reading = Degrees(r: real) | FloatOfText(text: string)

  /** Python `float(v)`: `TypeError` for `None`, lists and dicts. */
  function FloatOf(v: Value): (r: Result<Reading, PyError>)
    ensures v.Int? ==> r == Ok(Degrees(v.i as real))
    ensures v.Float? ==> r == Ok(Degrees(v.r))
    ensures r.Err? <==> v.Null? || v.List? || v.Obj?
  {
    match v
    case Null => Err(TypeError)
    case Bool(b) => Ok(Degrees(if b then 1.0 else 0.0))
    case Int(i) => Ok(Degrees(i as real))
    case Float(x) => Ok(Degrees(x))
    case Str(s) => Ok(FloatOfText(s))
    case List(_) => Err(TypeError)
    case Obj(_) => Err(TypeError)
  }

  /** `native_value`: 0 without data, otherwise `float()` of the target key, 0 when
      missing. */
  function NativeValue(data: Option<Frame>, t: TempType): (r: Result<Reading, PyError>)
    ensures !HasData(data) ==> r == Ok(Degrees(0.0))
    ensures HasData(data) && TargetKey(t) !in data.value ==> r == Ok(Degrees(0.0))
    ensures HasData(data) && TargetKey(t) in data.value ==> r == FloatOf(data.value[TargetKey(t)])
  {
    if !HasData(data) then Ok(Degrees(0.0))
    else FloatOf(Get(data.value, TargetKey(t), Int(0)))
  }

  /** The arguments of `send_temp_command`. */
  datatype TempCommand = TempCommand(tempType: string, temperature: int)

  /** `async_set_native_value(value)`: the type and `int(value)`, truncated toward zero. */
  function SetNativeValue(t: TempType, value: real): (c: TempCommand)
    ensures c.tempType == TypeName(t)
    ensures value >= 0.0 ==> c.temperature as real <= value < c.temperature as real + 1.0
    ensures value < 0.0 ==> c.temperature as real - 1.0 < value <= c.temperature as real
  {
    TempCommand(TypeName(t), Truncate(value))
  }

  /** A value the entity accepts, inside its declared range, is sent inside that range. */
  lemma SetInRange(t: TempType, value: real)
    requires DeclaredRange(t).min as real <= value <= DeclaredRange(t).max as real
    ensures DeclaredRange(t).min <= SetNativeValue(t, value).temperature <= DeclaredRange(t).max
  {
  }

  /** The value reads back: when the printer reports the temperature that was sent, the
      entity shows it, which for a whole number of degrees is the value set. */
  lemma ReadsBack(frame: Frame, t: TempType, value: real)
    ensures NativeValue(Some(frame[TargetKey(t) := Int(SetNativeValue(t, value).temperature)]), t)
         == Ok(Degrees(SetNativeValue(t, value).temperature as real))
    ensures value == value.Floor as real ==>
              NativeValue(Some(frame[TargetKey(t) := Int(SetNativeValue(t, value).temperature)]), t)
              == Ok(Degrees(value))
  {
    var n := SetNativeValue(t, value).temperature;
    var f := frame[TargetKey(t) := Int(n)];
    assert TargetKey(t) in f && f[TargetKey(t)] == Int(n);
    if value == value.Floor as real {
      WholeTruncates(value, value.Floor);
    }
  }

  /** `int()` keeps a whole number of degrees. */
  lemma WholeTruncates(value: real, k: int)
    requires value == k as real
    ensures Truncate(value) == k
  {
    var n := Truncate(value);
    if value >= 0.0 {
      assert n as real <= k as real < n as real + 1.0;
      assert n <= k < n + 1;
    } else {
      assert n as real - 1.0 < k as real <= n as real;
      assert n - 1 < k <= n;
    }
  }
}
