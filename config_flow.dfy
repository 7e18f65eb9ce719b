/** The configuration flow: the user step and its connection test, the SSDP and Zeroconf
    discovery steps, and the port search they share. The websocket traffic is abstracted:
    a probe says whether a printer answers on a port, and the connection test is given the
    reply it received. */
module ConfigFlow {
  import opened Base
  import opened Json
  import Text
  import Token
  import Integration

  /** The ports `_detect_creality_port` tries, in this order. */
  const Ports: seq<int> := [9999, 18188, 8080, 80]

  /** The form's defaults. */
  const DefaultPort: int := 9999
  const DefaultPassword: string := ""

  const UserTitle: string := "Creality Control"

  /** What an entry is created with: the form's fields, or a discovered printer's. */
  datatype EntryData = EntryData(host: string, port: int, password: string)

  /** The steps' outcomes: an entry, an abort with a reason, or the form again with errors. */
  datatype FlowResult =
    | CreateEntry(title: string, data: EntryData)
    | Abort(reason: string)
    | ShowForm(errors: map<string, string>)

  // ---------------------------------------------------------------- the port search

  /** The first port of `ports` whose probe succeeds. */
  function FirstPort(ports: seq<int>, probe: int -> bool): (r: Option<int>)
    ensures r.Some? ==> r.value in ports && probe(r.value)
    ensures r.Some? ==> exists i :: 0 <= i < |ports| && ports[i] == r.value
                          && forall j :: 0 <= j < i ==> !probe(ports[j])
    ensures r.None? <==> forall p :: p in ports ==> !probe(p)
    decreases |ports|
  {
    if |ports| == 0 then None
    else if probe(ports[0]) then Some(ports[0])
    else
      var r := FirstPort(ports[1..], probe);
      assert forall p :: p in ports ==> p == ports[0] || p in ports[1..];
      if r.None? then r
      else
        var i :| 0 <= i < |ports[1..]| && ports[1..][i] == r.value
                 && forall j :: 0 <= j < i ==> !probe(ports[1..][j]);
        assert ports[i + 1] == r.value && forall j :: 0 <= j < i + 1 ==> !probe(ports[j]);
        r
  }

  /** One probe of the search: the first port left answers, or the search goes on. */
  lemma FirstPortStep(ports: seq<int>, i: nat, probe: int -> bool)
    requires i < |ports|
    ensures FirstPort(ports[i..], probe)
            == if probe(ports[i]) then Some(ports[i]) else FirstPort(ports[i + 1..], probe)
  {
    assert ports[i..][0] == ports[i] && ports[i..][1..] == ports[i + 1..];
  }

  /** `_detect_creality_port(host)`, where `probe(port)` is what
      `_test_creality_connection(host, port)` is meant to return. */
  method DetectPort(probe: int -> bool) returns (port: Option<int>)
    ensures port == FirstPort(Ports, probe)
  {
    var i := 0;
    while i < |Ports|
      invariant 0 <= i <= |Ports|
      invariant FirstPort(Ports[i..], probe) == FirstPort(Ports, probe)
    {
      FirstPortStep(Ports, i, probe);
      if probe(Ports[i]) {
        return Some(Ports[i]);
      }
      i := i + 1;
    }
    assert Ports[i..] == [];
    return None;
  }

  /** The search order: a port is returned only when every earlier one fails. */
  lemma DetectOrder(probe: int -> bool)
    ensures probe(9999) ==> FirstPort(Ports, probe) == Some(9999)
    ensures !probe(9999) && probe(18188) ==> FirstPort(Ports, probe) == Some(18188)
    ensures !probe(9999) && !probe(18188) && probe(8080) ==> FirstPort(Ports, probe) == Some(8080)
    ensures !probe(9999) && !probe(18188) && !probe(8080) && probe(80) ==> FirstPort(Ports, probe) == Some(80)
    ensures !probe(9999) && !probe(18188) && !probe(8080) && !probe(80) ==> FirstPort(Ports, probe) == None
  {
    assert Ports[1..] == [18188, 8080, 80];
    assert Ports[1..][1..] == [8080, 80];
    assert Ports[1..][1..][1..] == [80];
  }

  /** `_test_creality_connection` as written: `aiohttp` itself is never imported, so
      `aiohttp.ClientSession()` raises, the handler returns, and then the `finally` clause
      closes a `session` that was never bound, which raises again. */
  function ProbeAsWritten(host: string, port: int): Result<bool, PyError> {
    Err(UnboundLocalError)
  }

  /** The search loop over `ports` with a probe that may raise: the first exception
      propagates. */
  function SearchRaising(ports: seq<int>, probe: int -> Result<bool, PyError>)
    : (r: Result<Option<int>, PyError>)
    ensures |ports| > 0 && probe(ports[0]).Err? ==> r == Err(probe(ports[0]).error)
    decreases |ports|
  {
    if |ports| == 0 then Ok(None)
    else
      match probe(ports[0])
      case Err(e) => Err(e)
      case Ok(found) => if found then Ok(Some(ports[0])) else SearchRaising(ports[1..], probe)
  }

  /** With a probe that never raises, that loop is the search. */
  lemma {:induction false} SearchRaisingTotal(ports: seq<int>, probe: int -> bool)
    ensures SearchRaising(ports, p => Ok(probe(p))) == Ok(FirstPort(ports, probe))
    decreases |ports|
  {
    if |ports| > 0 {
      SearchRaisingTotal(ports[1..], probe);
    }
  }

  /** `_detect_creality_port` as written: the first probe's exception propagates. */
  function DetectPortAsWritten(host: string): (r: Result<Option<int>, PyError>)
    ensures r == Err(UnboundLocalError)
  {
    SearchRaising(Ports, p => ProbeAsWritten(host, p))
  }

  // ---------------------------------------------------------------- the connection test

  /** What the user step's connection attempt gets: an exception before a reply is decoded
      (the socket refuses, the handshake or `receive_json` fails), or the decoded reply. */
  datatype Reply = Failed | Replied(response: Value)

  /** The status request the test sends, with the token for `password`. */
  function StatusRequest(cipher: Token.Cipher, password: string): (v: Value)
    ensures v.Obj? && v.fields.Keys == {"cmd", "token"}
    ensures v.fields["cmd"] == Str("GET_PRINT_STATUS") && v.fields["token"].Str?
    ensures Token.Base64Decode(v.fields["token"].s)
         == Some(Token.EcbEncrypt(cipher, Token.TokenKey, Token.Plaintext(Some(password))))
  {
    Token.TokenDecodes(cipher, Some(password));
    Integration.CommandFrame(Integration.StatusCommand, Token.GenerateToken(cipher, Some(password)))
  }

  /** `_test_connection` with the timeout in scope: false for a `TOKEN_ERROR` status, true
      for any other reply, `None` for an exception. Python's `in` on the reply raises for
      numbers, booleans and `None`; on a list or string it finds an element or substring, whose
      subscript by a string then raises. */
  function TestConnection(reply: Reply): (r: Option<bool>)
    ensures reply.Failed? ==> r == None
    ensures reply.Replied? && reply.response.Obj? ==>
              (r == Some(false) <==> Get(reply.response.fields, "printStatus", Null) == Str("TOKEN_ERROR"))
    ensures reply.Replied? && reply.response.Obj? ==> r.Some?
    ensures r == Some(false) ==> reply.Replied? && reply.response.Obj?
  {
    match reply
    case Failed => None
    case Replied(v) =>
      match v
      case Obj(fields) =>
        if "printStatus" in fields && fields["printStatus"] == Str("TOKEN_ERROR") then Some(false)
        else Some(true)
      case List(items) => if Str("printStatus") in items then None else Some(true)
      case Str(s) => if Text.Contains(s, "printStatus") then None else Some(true)
      case _ => None
  }

  /** `_test_connection` as written: `async_timeout` is never imported, so once the request
      is sent the `NameError` is caught like any other exception. */
  function TestConnectionAsWritten(reply: Reply): Option<bool> {
    None
  }

  // ---------------------------------------------------------------- the user step

  /** `async_step_user`: without input, the form; otherwise the entry when the test passes,
      and the form with `cannot_connect` or `invalid_password` when it does not. */
  function StepUserWith(input: Option<EntryData>, valid: Option<bool>): (r: FlowResult)
    ensures input.None? ==> r == ShowForm(map[])
    ensures input.Some? ==> (r.CreateEntry? <==> valid == Some(true))
    ensures r.CreateEntry? ==> r == CreateEntry(UserTitle, input.value)
    ensures input.Some? && valid == None ==> r == ShowForm(map["base" := "cannot_connect"])
    ensures input.Some? && valid == Some(false) ==> r == ShowForm(map["base" := "invalid_password"])
    ensures !r.Abort?
  {
    if input.None? then ShowForm(map[])
    else if valid == Some(true) then CreateEntry(UserTitle, input.value)
    else ShowForm(map["base" := if valid.None? then "cannot_connect" else "invalid_password"])
  }

  /** The user step with the connection test as meant: an object reply creates the entry
      unless its status is `TOKEN_ERROR`, which asks for the password again; no reply, a
      reply that is `null`, a number or a boolean, or a list or string on which the
      `printStatus` lookup raises, reports that the printer cannot be reached. */
  function StepUser(input: Option<EntryData>, reply: Reply): (r: FlowResult)
    ensures input.None? ==> r == ShowForm(map[])
    ensures input.Some? && reply.Failed? ==> r == ShowForm(map["base" := "cannot_connect"])
    ensures input.Some? && reply.Replied? && reply.response.Obj? ==>
              r == if Get(reply.response.fields, "printStatus", Null) == Str("TOKEN_ERROR")
                   then ShowForm(map["base" := "invalid_password"])
                   else CreateEntry(UserTitle, input.value)
    ensures input.Some? && reply.Replied?
            && (reply.response.Null? || reply.response.Bool? || reply.response.Int?
                || reply.response.Float?) ==>
              r == ShowForm(map["base" := "cannot_connect"])
    ensures input.Some? && reply.Replied? && reply.response.List? ==>
              r == if Str("printStatus") in reply.response.items
                   then ShowForm(map["base" := "cannot_connect"]) else CreateEntry(UserTitle, input.value)
    ensures input.Some? && reply.Replied? && reply.response.Str? ==>
              r == if Text.Contains(reply.response.s, "printStatus")
                   then ShowForm(map["base" := "cannot_connect"]) else CreateEntry(UserTitle, input.value)
    ensures r == ShowForm(map["base" := "invalid_password"]) ==>
              reply.Replied? && reply.response.Obj?
  {
    var empty: map<string, string> := map[];
    assert "base" !in empty && map["base" := "invalid_password"]["base"] != "cannot_connect";
    StepUserWith(input, TestConnection(reply))
  }

  /** The user step as written: a submitted form never creates an entry, whatever the
      printer answers. */
  function StepUserAsWritten(input: Option<EntryData>, reply: Reply): (r: FlowResult)
    ensures input.None? ==> r == ShowForm(map[])
    ensures input.Some? ==> r == ShowForm(map["base" := "cannot_connect"])
  {
    StepUserWith(input, TestConnectionAsWritten(reply))
  }

  // ---------------------------------------------------------------- discovery

  /** The host of an SSDP location: `location.replace("http://", "").split("/")[0]`, the
      text before the first `/` once every `http://` is removed. */
  function SsdpHost(location: string): (host: string)
    ensures var s := Text.Replace(location, "http://", "");
      && '/' !in host && |host| <= |s| && s[..|host|] == host
      && (|host| < |s| ==> s[|host|] == '/')
  {
    var s := Text.Replace(location, "http://", "");
    Text.SplitFirst(s, '/');
    Text.Split(s, '/')[0]
  }

  /** The location `http://host/path` names `host`. */
  lemma SsdpHostOfUrl(host: string, path: string)
    requires '/' !in host && !Text.Contains(host + "/" + path, "http://")
    ensures SsdpHost("http://" + host + "/" + path) == host
  {
    var rest := host + "/" + path;
    var location := "http://" + rest;
    assert "http://" + host + "/" + path == location;
    assert location[..7] == "http://";
    assert location[7..] == rest;
    assert Text.Replace(location, "http://", "") == rest;
    Text.SplitAfter(host, path, '/');
  }

  /** `f"{host}:{port}"`, the discovered entry's unique id. */
  function DiscoveryId(host: string, port: int): (id: string)
    ensures |id| == |host| + 1 + |Text.IntToDecimal(port)|
    ensures id[..|host|] == host && id[|host|] == ':'
    ensures id[|host| + 1..] == Text.IntToDecimal(port)
  {
    host + ":" + Text.IntToDecimal(port)
  }

  /** Distinct printers get distinct ids, for hosts without a colon. */
  lemma DiscoveryIdInjective(h1: string, p1: int, h2: string, p2: int)
    requires ':' !in h1 && ':' !in h2
    requires DiscoveryId(h1, p1) == DiscoveryId(h2, p2)
    ensures h1 == h2 && p1 == p2
  {
    var id := DiscoveryId(h1, p1);
    Text.SplitAfter(h1, Text.IntToDecimal(p1), ':');
    Text.SplitAfter(h2, Text.IntToDecimal(p2), ':');
    assert h1 == Text.Split(id, ':')[0] == h2;
    assert Text.IntToDecimal(p1) == id[|h1| + 1..] == Text.IntToDecimal(p2);
    Text.IntDecimalInjective(p1, p2);
  }

  /** The end of both discovery steps: abort when the id is already configured, otherwise
      an entry for the host and port with an empty password. */
  function Discovered(host: string, port: int, configured: set<string>): (r: FlowResult)
    ensures r.Abort? <==> DiscoveryId(host, port) in configured
    ensures r.Abort? ==> r.reason == "already_configured"
    ensures r.CreateEntry? ==> r.title == "Creality Printer (" + host + ")"
                                && r.data == EntryData(host, port, "")
    ensures !r.ShowForm?
  {
    if DiscoveryId(host, port) in configured then Abort("already_configured")
    else CreateEntry("Creality Printer (" + host + ")", EntryData(host, port, ""))
  }

  /** The rest of a discovery step once the port is known, or known to be missing. */
  function AfterSearch(host: string, port: Option<int>, configured: set<string>): (r: FlowResult)
    ensures port.None? ==> r == Abort("no_port")
    ensures port.Some? ==> r == Discovered(host, port.value, configured)
  {
    match port
    case None => Abort("no_port")
    case Some(p) => Discovered(host, p, configured)
  }

  /** `async_step_ssdp` with the probe as meant; `location` is the `ssdp_location`, if given. */
  function StepSsdp(location: Option<string>, probe: int -> bool, configured: set<string>)
    : (r: FlowResult)
    ensures var host := SsdpHost(if location.Some? then location.value else "");
      && (host == "" ==> r == Abort("no_host"))
      && (host != "" && FirstPort(Ports, probe).None? ==> r == Abort("no_port"))
      && (host != "" && FirstPort(Ports, probe).Some? ==>
            r == Discovered(host, FirstPort(Ports, probe).value, configured))
  {
    var host := SsdpHost(if location.Some? then location.value else "");
    if host == "" then Abort("no_host")
    else AfterSearch(host, FirstPort(Ports, probe), configured)
  }

  /** `async_step_ssdp` as written: any host runs the port search, which raises. */
  function StepSsdpAsWritten(location: Option<string>, configured: set<string>)
    : (r: Result<FlowResult, PyError>)
    ensures var host := SsdpHost(if location.Some? then location.value else "");
      (host == "" ==> r == Ok(Abort("no_host"))) && (host != "" ==> r.Err?)
  {
    var host := SsdpHost(if location.Some? then location.value else "");
    if host == "" then Ok(Abort("no_host"))
    else
      match DetectPortAsWritten(host)
      case Err(e) => Err(e)
      case Ok(port) => Ok(AfterSearch(host, port, configured))
  }

  /** Python's truthiness of the advertised port: missing and `0` are both falsy. */
  predicate PortGiven(port: Option<int>) {
    port.Some? && port.value != 0
  }

  /** `async_step_zeroconf` with the probe as meant: the advertised port is used when
      given, otherwise the search runs. */
  function StepZeroconf(host: Option<string>, port: Option<int>, probe: int -> bool,
                        configured: set<string>): (r: FlowResult)
    ensures host.None? || host.value == "" ==> r == Abort("no_host")
    ensures host.Some? && host.value != "" && PortGiven(port) ==>
              r == Discovered(host.value, port.value, configured)
    ensures host.Some? && host.value != "" && !PortGiven(port) ==>
              r == match FirstPort(Ports, probe)
                   case None => Abort("no_port")
                   case Some(p) => Discovered(host.value, p, configured)
  {
    if host.None? || host.value == "" then Abort("no_host")
    else
      AfterSearch(host.value, if PortGiven(port) then port else FirstPort(Ports, probe), configured)
  }

  /** `async_step_zeroconf` as written: only the search raises. */
  function StepZeroconfAsWritten(host: Option<string>, port: Option<int>, configured: set<string>)
    : (r: Result<FlowResult, PyError>)
    ensures host.Some? && host.value != "" && !PortGiven(port) ==> r.Err?
  {
    if host.None? || host.value == "" then Ok(Abort("no_host"))
    else
      var h := host.value;
      if PortGiven(port) then Ok(Discovered(h, port.value, configured))
      else
        match DetectPortAsWritten(h)
        case Err(e) => Err(e)
        case Ok(p) => Ok(AfterSearch(h, p, configured))
  }

  /** Where no search is needed, the step as written does what is meant, whatever the probe. */
  lemma ZeroconfAgrees(host: Option<string>, port: Option<int>, probe: int -> bool,
                       configured: set<string>)
    requires host.None? || host.value == "" || PortGiven(port)
    ensures StepZeroconfAsWritten(host, port, configured) == Ok(StepZeroconf(host, port, probe, configured))
  {
  }

  /** A discovery only ever creates an entry for a port it was given or that answered. */
  lemma DiscoveredPortAnswers(host: Option<string>, port: Option<int>, probe: int -> bool,
                              configured: set<string>)
    requires StepZeroconf(host, port, probe, configured).CreateEntry?
    ensures var e := StepZeroconf(host, port, probe, configured).data;
      (PortGiven(port) && e.port == port.value) || (e.port in Ports && probe(e.port))
  {
    var p := if PortGiven(port) then port else FirstPort(Ports, probe);
    assert p.Some?;
  }
}
