/** The button platform: which buttons a printer gets, their ids, what pressing sends, and
    their `device_info`. */
module Button {
  import opened Base
  import opened Json
  import Integration

  /** A button: its name and the command it sends. */
  datatype ButtonSpec = ButtonSpec(name: string, command: string)

  /** The two buttons every printer gets. */
  const PrintButtons: seq<ButtonSpec> := [
    ButtonSpec("Pause/Resume Print", "PRINT_PAUSE"),
    ButtonSpec("Stop Print", "PRINT_STOP")
  ]

  /** The G-code buttons of the K1 series. */
  const GcodeButtons: seq<ButtonSpec> := [
    ButtonSpec("Home All Axes", "G28"),
    ButtonSpec("Home X Axis", "G28 X"),
    ButtonSpec("Home Y Axis", "G28 Y"),
    ButtonSpec("Home Z Axis", "G28 Z"),
    ButtonSpec("Emergency Stop", "M112"),
    ButtonSpec("Toggle Fan", "M106 S255"),
    ButtonSpec("Turn Off Fan", "M106 S0")
  ]

  /** The models that get the G-code buttons. */
  const K1Models: seq<Value> := [Str("K1C"), Str("K1"), Str("K1 Max")]

  /** `coordinator.data and coordinator.data.get("model") in [...]`. */
  predicate K1Series(data: Option<Frame>) {
    HasData(data) && Get(data.value, "model", Null) in K1Models
  }

  /** `f"{host}_{command}"`, a button's unique id. */
  function UniqueId(host: string, command: string): (id: string)
    ensures |id| == |host| + 1 + |command|
    ensures id[..|host|] == host && id[|host|] == '_' && id[|host| + 1..] == command
  {
    host + "_" + command
  }

  /** `async_setup_entry`: the print buttons, extended with the G-code buttons for a K1. */
  method SetupButtons(data: Option<Frame>) returns (buttons: seq<ButtonSpec>)
    ensures |buttons| >= 2 && buttons[..2] == PrintButtons
    ensures K1Series(data) ==> buttons == PrintButtons + GcodeButtons
    ensures !K1Series(data) ==> buttons == PrintButtons
  {
    buttons := PrintButtons;
    if HasData(data) && Get(data.value, "model", Null) in K1Models {
      buttons := buttons + GcodeButtons;
    }
  }

  /** No two buttons share a command, so no two share a unique id. */
  lemma CommandsDistinct()
    ensures var all := PrintButtons + GcodeButtons;
      forall i, j :: 0 <= i < j < |all| ==> all[i].command != all[j].command
  {
  }

  lemma UniqueIdsDistinct(host: string, c1: string, c2: string)
    requires c1 != c2
    ensures UniqueId(host, c1) != UniqueId(host, c2)
  {
    assert UniqueId(host, c1)[|host| + 1..] == c1;
  }

  /** `async_press`: the coordinator sends the button's command. */
  method Press(b: ButtonSpec, c: Integration.Coordinator, writeOk: bool) returns (sent: bool)
    requires c.Valid()
    modifies c.wsClient
    ensures c.wsClient == null ==> !sent
    ensures c.wsClient != null ==>
              && c.wsClient.Fields() == old(c.wsClient.Fields())
              && (sent, c.wsClient.outbox)
                 == Integration.SendStep(c.wsClient.Fields(), old(c.wsClient.outbox), b.command,
                                         c.wsClient.AuthToken(), writeOk)
  {
    sent := c.SendCommand(b.command, writeOk);
  }
}
