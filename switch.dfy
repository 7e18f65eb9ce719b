/** The switch platform: the fan and light switches, their state, and the `set` messages
    turning them on and off. The messages go to the coordinator's `send_websocket_command`,
    which the coordinator does not define; the model returns the message it is given. */
module Switch {
  import opened Base
  import opened Json
  import Text

  datatype SwitchType = Fan | Light

  /** The switches `async_setup_entry` creates, in order. */
  const Switches: seq<SwitchType> := [Fan, Light]

  /** `switch_type` as the source spells it. */
  function TypeName(t: SwitchType): string {
    match t
    case Fan => "fan"
    case Light => "light"
  }

  /** The name suffix: "Fan" and "Light". */
  function Suffix(t: SwitchType): string {
    match t
    case Fan => "Fan"
    case Light => "Light"
  }

  /** The key of the frame that holds the switch's state, and that `set` writes. */
  function Field(t: SwitchType): string {
    match t
    case Fan => "fan"
    case Light => "lightSw"
  }

  /** `f"{host}_switch_{switch_type}"`. */
  function UniqueId(host: string, t: SwitchType): (id: string)
    ensures |id| > |host| + 8 && id[..|host| + 8] == host + "_switch_"
  {
    host + "_switch_" + TypeName(t)
  }

  /** The two switches of a printer have different ids. */
  lemma UniqueIdsDistinct(host: string)
    ensures UniqueId(host, Fan) != UniqueId(host, Light)
  {
    assert UniqueId(host, Fan)[|host| + 8] == 'f';
    assert UniqueId(host, Light)[|host| + 8] == 'l';
  }

  /** `is_on`: off without data; otherwise the truthiness of the switch's key, 0 when
      missing. */
  function IsOn(data: Option<Frame>, t: SwitchType): (on: bool)
    ensures !HasData(data) ==> !on
    ensures HasData(data) && Field(t) !in data.value ==> !on
    ensures HasData(data) && Field(t) in data.value ==> (on <==> Truthy(data.value[Field(t)]))
  {
    if !HasData(data) then false
    else Truthy(Get(data.value, Field(t), Int(0)))
  }

  /** `{"method": "set", "params": {key: value}}`. */
  function SetMessage(key: string, value: int): (m: Value)
    ensures m.Obj? && m.fields.Keys == {"method", "params"}
    ensures m.fields["method"] == Str("set")
    ensures m.fields["params"] == Obj(map[key := Int(value)])
  {
    Obj(map["method" := Str("set"), "params" := Obj(map[key := Int(value)])])
  }

  /** `async_turn_on`'s message: the switch's key set to 1. */
  function TurnOn(t: SwitchType): Value {
    SetMessage(Field(t), 1)
  }

  /** `async_turn_off`'s message: the switch's key set to 0. */
  function TurnOff(t: SwitchType): Value {
    SetMessage(Field(t), 0)
  }

  /** The printer's next frame, when it accepts a `set` message: the frame with the message's
      parameters written over it. */
  function Applied(frame: Frame, m: Value): Frame
    requires m.Obj? && "params" in m.fields && m.fields["params"].Obj?
  {
    frame + m.fields["params"].fields
  }

  /** The state reads back the command: a printer that takes the message reports the
      switch on after turning it on and off after turning it off, and leaves the other
      switch as it was. */
  lemma ReadsBack(frame: Frame, t: SwitchType, u: SwitchType)
    ensures IsOn(Some(Applied(frame, TurnOn(t))), t)
    ensures !IsOn(Some(Applied(frame, TurnOff(t))), t)
    ensures u != t ==> IsOn(Some(Applied(frame, TurnOn(t))), u) == IsOn(Some(frame), u)
    ensures u != t ==> IsOn(Some(Applied(frame, TurnOff(t))), u) == IsOn(Some(frame), u)
  {
    var on := Applied(frame, TurnOn(t));
    var off := Applied(frame, TurnOff(t));
    assert Field(t) in on && on[Field(t)] == Int(1);
    assert Field(t) in off && off[Field(t)] == Int(0);
    if u != t {
      assert Field(u) != Field(t);
      assert Field(u) in on <==> Field(u) in frame;
      assert Field(u) in frame ==> on[Field(u)] == frame[Field(u)] && off[Field(u)] == frame[Field(u)];
    }
  }
}
