# Creality Control, modelled in Dafny

Creality Control is a Home Assistant integration for Creality 3D printers. This project
models the part of it that is deterministic. Each file is one module:

- `integration.dfy` — the integration core in `__init__.py`:
  - the WebSocket client `CrealityWebSocketClient`: its five-valued connection state, health
    check, connect, disconnect, reconnect back-off, command gate, message loop and drive loop;
  - the data coordinator `CrealityDataCoordinator`: polling, "model" enrichment of frames,
    and command forwarding.
- `token.dfy` — the access token: UTF-8 encoding of the password, PKCS#7 padding (section 6.3
  of RFC 5652) to 8-byte blocks, ECB over a block cipher, and the Base64 of section 4 of
  RFC 4648.
- `sensor.dfy` — the sensor platform: readings, progress selection, the `timedelta` text of
  the time-left sensor, identities, and `device_info`.
- `camera.dfy` — the camera platform: the single-frame MJPEG extractor, availability, the
  image guard, and identities.
- `device.dfy` — what every platform repeats once per file: model precedence, the firmware
  version parser, and the product image normaliser.
- `config_flow.dfy` — the configuration flow: the user step, SSDP and Zeroconf discovery,
  the port search, and the connection test.
- `button.dfy`, `switch.dfy`, `number.dfy` — the control platforms.
- `entity.dfy` — the availability rule shared by switches and numbers.
- `base.dfy`, `json.dfy`, `text.dfy` — shared pieces:
  - `Option`, `Result` and the Python exceptions that matter;
  - decoded JSON values;
  - the Python string operations the source uses (`find`, `replace`, `split`, `strip`,
    `upper`, `str()` and `int()` of integers).

The client and the coordinator are classes whose methods update their fields. Each method
is specified by a step function over `Integration.Link`, a value holding the client's fields.
A pass of the drive loop `_run` is the step function `Integration.PassStep` over
`Integration.Pass`, which adds the coordinator's data and the frames sent to the client's
fields; a run of passes is `Integration.RunSteps`. The reconnect policy, the health check and
the message handling are proved as lemmas about those step functions. Python behaviours that matter to the results are written out:
- truthiness;
- `True == 1` and `1.0 == 1`;
- `int()` truncating toward zero, the 4300-digit limit, and underscores between digits;
- `timedelta` borrowing a day for negative values;
- negative slice indices.

Inputs the source reads from the outside world become parameters:
- the clock is `now`;
- whether the WebSocket handshake and writes succeed (`handshakeOk`, `writeOk`);
  `handshakeOk` also covers getting the HTTP session that `_connect` opens the socket with;
- the incoming message stream;
- the printer's reply to a probe or a status request;
- a port probe `probe: int -> bool`;
- the set of configured discovery ids;
- `last_update_success`;
- the DES block cipher (`Token.Cipher`).

Behaviours of the code that the model follows:
- A frame from the printer replaces the coordinator's data; it is not merged into it
  (`__init__.py:198`).
- Enrichment overwrites a `detected_model` key already in a frame. Only `model` and
  `printerModel` stop it (`__init__.py:189-195`).
- After 10 failed attempts, `_handle_connection_error` returns without sleeping. The drive
  loop then calls `_connect` again at once, on every pass (`__init__.py:103-113`, `208-211`).
  The lemma `Integration.ExhaustedStillConnects` states this.
- An ERROR or CLOSE frame, or the end of the stream, ends the message loop without raising.
  The state stays `CONNECTED` with the socket closed (`__init__.py:167-172`). From then on
  `_connect` returns at once (`__init__.py:117-118`), `send_command` refuses
  (`__init__.py:78-80`), and iterating the closed socket yields nothing, so every later
  pass of the drive loop changes nothing and does not sleep. The lemmas
  `Integration.StuckPass` and `Integration.StuckRun` state this.
- `_poll_data` returns `None` for an empty reply: the function ends without a `return`
  (`__init__.py:296-317`).

## Model

| member | source | states |
|---|---|---|
| Integration.InferredModel | custom_components/creality_control/__init__.py:189-195 | a model is inferred exactly for ports 9999 and 18188 |
| Integration.Enrich | custom_components/creality_control/__init__.py:189-195 | every key of the frame except `detected_model` is kept, and no key but `detected_model` is added; the frame is unchanged when it names `model` or `printerModel` or the port is unknown; otherwise `detected_model` holds the inferred model; the same code is at __init__.py:307-314 |
| Integration.EnrichIdempotent | custom_components/creality_control/__init__.py:189-195 | enriching an enriched frame changes nothing |
| Integration.CommandFrame | custom_components/creality_control/__init__.py:84 | a command is sent as an object with exactly the keys `cmd` and `token`, holding the command and the token |
| Integration.Backoff | custom_components/creality_control/__init__.py:217-220 | the pre-jitter delay is between 1 and 60, and is either 2^attempts or the 60-second cap, never more than 2^attempts |
| Integration.BackoffMonotone | custom_components/creality_control/__init__.py:217-220 | a later attempt never waits less |
| Integration.BackoffCapped | custom_components/creality_control/__init__.py:217-220 | from the sixth attempt on, the delay is 60 |
| Integration.BackoffSchedule | custom_components/creality_control/__init__.py:214-220 | attempts 1 to 10 wait 2, 4, 8, 16, 32, 60, 60, 60, 60, 60 |
| Integration.InitialLinkValid | custom_components/creality_control/__init__.py:38-55 | a fresh client's fields satisfy the invariant: at most 10 attempts, none while connected or stale, at least one while reconnecting, and a chained transition log |
| Integration.WithState | custom_components/creality_control/__init__.py:233-238 | `_set_state` sets the state; setting the current state changes no field; otherwise only the state changes and one transition is logged |
| Integration.WithStateChains | custom_components/creality_control/__init__.py:233-238 | logging through `_set_state` keeps the log a chain of real changes ending in the current state |
| Integration.HealthCheck | custom_components/creality_control/__init__.py:240-254 | when not connected: false, and nothing changes; when connected: true iff a message came within the last 90 seconds; a true answer changes nothing; a false answer on a connected link moves it to `STALE` |
| Integration.ConnectStep | custom_components/creality_control/__init__.py:115-145 | when already connected: a no-op that does not raise; after a handshake that succeeds: `CONNECTED`, 0 attempts, `last_message_time = now`, the socket open, shutdown untouched; after one that fails: raises, with the state `CONNECTING` |
| Integration.DisconnectStep | custom_components/creality_control/__init__.py:227-231 | `_disconnect` closes the socket and leaves `DISCONNECTED`; attempts, shutdown and message time are untouched |
| Integration.ErrorStep | custom_components/creality_control/__init__.py:201-225 | the socket is always closed; when shutting down or after 10 attempts: `DISCONNECTED`, no delay, and the attempts unchanged; otherwise `RECONNECTING`, one more attempt, and the delay `Backoff` of the new count |
| Integration.SendStep | custom_components/creality_control/__init__.py:76-89 | `send_command` returns true iff connected, the socket open and the write succeeds; a true result appends exactly one command frame, and any other result writes nothing |
| Integration.HealthCheckKeepsValid | custom_components/creality_control/__init__.py:240-254 | `is_healthy` preserves the client invariant |
| Integration.ConnectKeepsValid | custom_components/creality_control/__init__.py:115-145 | `_connect` preserves the client invariant |
| Integration.DisconnectKeepsValid | custom_components/creality_control/__init__.py:227-231 | `_disconnect` preserves the client invariant |
| Integration.ErrorKeepsValid | custom_components/creality_control/__init__.py:201-225 | `_handle_connection_error` preserves the client invariant, so `reconnect_attempts <= 10` always holds |
| Integration.StaleIsSticky | custom_components/creality_control/__init__.py:245-254 | once `is_healthy` finds a connected link silent, the link is `STALE`, and every later check answers false without changes, whatever the time |
| Integration.OnlyConnectLeavesStale | custom_components/creality_control/__init__.py:115-145 | from `STALE`, the health check stays `STALE` and neither error handling nor disconnect reaches `CONNECTED`; only `_connect`, after a successful handshake, does, and a failed one leaves `CONNECTING` |
| Integration.ExhaustedStillConnects | custom_components/creality_control/__init__.py:103-113 | a client with 10 attempts used tries `_connect` again; the failure leaves it `DISCONNECTED` with no delay and the count at 10 |
| Integration.FailedRound | custom_components/creality_control/__init__.py:103-113 | one failing pass of the drive loop counts an attempt and returns its back-off below 10 attempts; at 10 it does neither |
| Integration.FailedRoundsDelays | custom_components/creality_control/__init__.py:103-113 | the delays of n consecutive failing passes are exactly the back-off schedule from the current attempt count, with no delay once 10 are used |
| Integration.RetryDelayAt | custom_components/creality_control/__init__.py:213-220 | the k-th delay of the schedule is the back-off of attempt a+k+1 while below 10 attempts, and none after |
| Integration.UnansweredRetries | custom_components/creality_control/__init__.py:103-113 | a client with no attempts whose printer never answers waits 2, 4, 8, 16, 32, then 60 five times, and not at all at the eleventh failure |
| Integration.StopIndex | custom_components/creality_control/__init__.py:167-172 | the loop stops at the first ERROR or CLOSE frame: none comes before it |
| Integration.ConsumedIgnoresRest | custom_components/creality_control/__init__.py:167-172 | messages after an ERROR or CLOSE frame are never read |
| Integration.HandleFrame | custom_components/creality_control/__init__.py:184-199 | the message time is always stamped; an empty frame changes nothing else; a non-empty one replaces the data with the enriched frame and tells the listeners once |
| Integration.DeliverConsumed | custom_components/creality_control/__init__.py:167-172 | the stopping frame itself changes nothing |
| Integration.LastFrameWins | custom_components/creality_control/__init__.py:198 | after a run of messages, the data is the last non-empty frame, enriched, whatever it was before: frames replace, they do not merge |
| Integration.UpdatesCountFrames | custom_components/creality_control/__init__.py:196-199 | listeners are told once per non-empty frame |
| Integration.Coordinator.constructor | custom_components/creality_control/__init__.py:259-268 | a coordinator starts with no data, no client and no listener updates |
| Integration.Coordinator.StartWebsocket | custom_components/creality_control/__init__.py:275-287 | a client is created and started only when there is none; a new client has the initial fields and an empty outbox |
| Integration.Coordinator.PollData | custom_components/creality_control/__init__.py:296-317 | a failed poll raises `UpdateFailed`; an empty reply gives `None`; any other reply gives the enriched frame |
| Integration.Coordinator.PollRequest | custom_components/creality_control/__init__.py:301-304 | the poll sends an object with exactly the keys `cmd` and `token`: `cmd` is "GET_PRINT_STATUS", and the token is text whose Base64 decoding is the ECB encryption, under the fixed key, of the padded password |
| Integration.Coordinator.AsyncUpdateData | custom_components/creality_control/__init__.py:289-294 | with a healthy client: the current data, or an empty dict without data; otherwise the poll's result; the client's fields become those of the health check, and nothing is sent |
| Integration.Coordinator.SendCommand | custom_components/creality_control/__init__.py:331-336 | false without a client; otherwise exactly the client's `send_command`, and the client's fields are unchanged |
| Integration.WebSocketClient.constructor | custom_components/creality_control/__init__.py:38-55 | a new client is `DISCONNECTED`, with 0 attempts, no socket, not shut down and an empty outbox |
| Integration.WebSocketClient.Start | custom_components/creality_control/__init__.py:57-63 | `start` marks the client running; a client that is not yet running has its shutdown flag cleared |
| Integration.WebSocketClient.Stop | custom_components/creality_control/__init__.py:65-74 | `stop` sets the shutdown flag, disconnects, and leaves the client not running |
| Integration.WebSocketClient.SetState | custom_components/creality_control/__init__.py:233-238 | the fields become those of `WithState` |
| Integration.WebSocketClient.IsHealthy | custom_components/creality_control/__init__.py:240-254 | the answer and the new fields are those of `HealthCheck` |
| Integration.WebSocketClient.Connect | custom_components/creality_control/__init__.py:115-145 | whether it raises and the new fields are those of `ConnectStep` |
| Integration.WebSocketClient.Disconnect | custom_components/creality_control/__init__.py:227-231 | the new fields are those of `DisconnectStep` |
| Integration.WebSocketClient.HandleConnectionError | custom_components/creality_control/__init__.py:201-225 | the delay and the new fields are those of `ErrorStep` |
| Integration.WebSocketClient.SendCommand | custom_components/creality_control/__init__.py:76-89 | the result and the new outbox are those of `SendStep`, with the token of the client's password |
| Integration.WebSocketClient.HandleMessage | custom_components/creality_control/__init__.py:184-199 | the message time and the coordinator's data and updates become those of `HandleFrame` |
| Integration.WebSocketClient.Receive | custom_components/creality_control/__init__.py:156-166 | only a text message holding JSON reaches `_handle_message` |
| Integration.WebSocketClient.MessageLoop | custom_components/creality_control/__init__.py:147-182 | the new fields, data and outbox are those of `LoopStep`: the status command is sent when the client may send; on a closed socket nothing is read and nothing raises; on an open one the messages up to the first ERROR or CLOSE frame are delivered in order, the loop raises only on a receive failure, and a stopping frame or the end of the stream closes the socket |
| Integration.WebSocketClient.ReadMessages | custom_components/creality_control/__init__.py:156-172 | over an open socket, the messages before the first ERROR or CLOSE frame are delivered in order and none after it; it reports whether such a frame came |
| Integration.WebSocketClient.EndLoop | custom_components/creality_control/__init__.py:167-182 | a stopping frame or the end of the stream closes the socket without raising, a timeout ends quietly, and a receive failure raises |
| Integration.WebSocketClient.RunIteration | custom_components/creality_control/__init__.py:103-113 | the new fields, data and outbox, and the delay slept, are those of `PassStep` from the old ones; the invariant and the shutdown flag are kept; a pass that sleeps leaves `RECONNECTING` with the back-off of the new attempt count as its delay |
| Integration.WebSocketClient.Run | custom_components/creality_control/__init__.py:103-113 | the delay of every pass, and the new fields, data and outbox, are those of `RunSteps` over the passes; the invariant is kept and shutdown stays unset; every back-off delay, before the jitter is added, lies between 1 and 60 seconds |
| Integration.LoopStep | custom_components/creality_control/__init__.py:147-182 | `_message_loop` after `_connect`: only the message time and the socket flag of the client change; the status command is added to the outbox exactly when the client may send and writing works; over a closed socket nothing else changes and nothing raises; over an open one the data, updates and message time are those of delivering the messages before the first ERROR or CLOSE frame, it raises iff no such frame comes and receiving fails, and the socket stays open iff no such frame comes and the stream does not end |
| Integration.RunSteps | custom_components/creality_control/__init__.py:103-113 | a run yields one delay per pass, in order |
| Integration.PassKeepsValid | custom_components/creality_control/__init__.py:103-113 | a pass keeps the invariant and the shutdown flag; a pass that sleeps leaves `RECONNECTING` and sleeps the back-off of the new attempt count |
| Integration.RunDelaysBounded | custom_components/creality_control/__init__.py:213-220 | every back-off delay of a run, before the jitter is added, from a client that keeps the invariant, lies between 1 and 60 seconds |
| Integration.ConnectedPass | custom_components/creality_control/__init__.py:103-145 | a pass whose handshake succeeds, from a client that is not connected, does not sleep and leaves `CONNECTED` with 0 attempts; it sends the status command iff writing works, delivers the messages before the first ERROR or CLOSE frame starting from the connection time, and keeps the socket open iff no such frame comes and the stream does not end |
| Integration.FailedPass | custom_components/creality_control/__init__.py:103-145 | a pass whose handshake fails, from a client that is not connected, is one of the failing passes of `FailedRounds`: it reads and sends nothing |
| Integration.StuckPass | custom_components/creality_control/__init__.py:103-182 | a client that is `CONNECTED` over a closed socket is left exactly as it was by a pass, which does not sleep |
| Integration.StuckRun | custom_components/creality_control/__init__.py:103-182 | such a client stays unchanged and never sleeps for any number of passes |
| Integration.FailingRun | custom_components/creality_control/__init__.py:103-113 | passes whose handshake always fails, from a client that is not connected and not shut down, never connect and read or send nothing; their delays are the `FailedRounds` delays, that is the `RetryDelays` from the attempts already counted |
| Integration.ConnectStepAsWritten | custom_components/creality_control/__init__.py:115-123 | as written, `_connect` behaves like a connect whose handshake fails whatever the printer does: from a client that is not connected it raises, leaving `CONNECTING` |
| Integration.AsWrittenPassRefused | custom_components/creality_control/__init__.py:103-123 | as written, a pass is the pass with the handshake refused and never leaves the client connected, while with the intended session a successful handshake that is not followed by a receive failure connects it |
| Integration.AsWrittenRunNeverConnects | custom_components/creality_control/__init__.py:103-123 | as written, a run from a client that is not connected never connects and sleeps exactly the `FailedRounds` delays |
| Integration.PollAsWrittenFails | custom_components/creality_control/__init__.py:296-317 | as written, polling fails with `UpdateFailed` even when the printer answers, where the intended poll returns a result |
| Token.Utf8Encode | custom_components/creality_control/config_flow.py:162 | each character takes 1 to 4 bytes |
| Token.Utf8RoundTrip | custom_components/creality_control/config_flow.py:162 | UTF-8 decoding gives back the encoded password |
| Token.Pad | custom_components/creality_control/config_flow.py:162 | PKCS#7: the output is a whole number of 8-byte blocks, 1 to 8 bytes longer, starts with the data, and every pad byte equals the number of pad bytes |
| Token.UnpadPad | custom_components/creality_control/config_flow.py:162 | removing the padding gives back the data |
| Token.PadShort | custom_components/creality_control/config_flow.py:162 | fewer than 8 bytes pad to one block |
| Token.EcbEncrypt | custom_components/creality_control/config_flow.py:161-163 | ECB keeps the length and encrypts each 8-byte block on its own with the key |
| Token.Base64Encode | custom_components/creality_control/config_flow.py:164 | the output has 4 characters per started group of 3 bytes |
| Token.Base64RoundTrip | custom_components/creality_control/config_flow.py:164 | Base64 decoding gives back the encoded bytes |
| Token.Base64Ending | custom_components/creality_control/config_flow.py:164 | a length of 2 mod 3 ends in exactly one `=` |
| Token.Plaintext | custom_components/creality_control/config_flow.py:157-162 | the padded plaintext is a whole number of blocks |
| Token.EmptyPassword | custom_components/creality_control/config_flow.py:157-162 | a missing password and the empty one both pad to eight bytes of value 8, and give the token of that block |
| Token.TokenDecodes | custom_components/creality_control/config_flow.py:154-165 | the token decodes to the ECB ciphertext of the padded password, and the padding comes off to the password's UTF-8 bytes; the same code is at __init__.py:91-101, __init__.py:319-329 |
| Token.ShortPasswordToken | custom_components/creality_control/config_flow.py:160-165 | a password of at most 7 bytes gives a 12-character token ending in a single `=` |
| Device.DeviceModel | custom_components/creality_control/sensor.py:166-174 | the model is `model`, else `printerModel`, else `detected_model`, else "Creality Printer", which is also the model without data; the same code is at button.py:45-53, switch.py:97-105, number.py:72-80 |
| Device.FirstHit | custom_components/creality_control/sensor.py:144-155 | the search stops at the first part that holds the marker with a non-empty stripped remainder |
| Device.FirmwareVersionDwin | custom_components/creality_control/sensor.py:143-148 | the parser returns the stripped remainder of the first part that holds "DWIN sw ver:" with a non-empty remainder |
| Device.FirmwareVersionSw | custom_components/creality_control/sensor.py:150-155 | without such a part, it returns the remainder of the first part that holds "sw ver:" with a non-empty remainder |
| Device.FirmwareVersionRaw | custom_components/creality_control/sensor.py:160-161 | without either, it returns the raw text |
| Device.FirmwareVersionShape | custom_components/creality_control/sensor.py:143-161 | the result is the raw text or a non-empty text with no white space at either end |
| Device.FirmwareVersionExample | custom_components/creality_control/sensor.py:140 | the documented example gives "1.3.3.46" |
| Device.FirmwareVersion | custom_components/creality_control/sensor.py:131-161 | "Unknown" without data or with a missing or falsy `modelVersion`; the parser's result for a non-empty string; any other truthy value unchanged; the same code is at sensor.py:205-236, camera.py:140-170, button.py:69-99, switch.py:117-147, number.py:92-122 |
| Device.CleanModelIsReplace | custom_components/creality_control/sensor.py:243 | the cleaning is Python's chain of `replace` calls, then `upper` |
| Device.CleanModelShape | custom_components/creality_control/sensor.py:243 | a cleaned name has no space, hyphen, parenthesis or lower-case letter |
| Device.CleanModelIdempotent | custom_components/creality_control/sensor.py:243 | cleaning a cleaned name changes nothing |
| Device.ImageName | custom_components/creality_control/sensor.py:246-280 | "K1SE" maps to "K1_SE"; every other entry of the mapping maps a name to itself, so any other name is kept |
| Device.ProductImage | custom_components/creality_control/sensor.py:237-283 | a falsy model gives no image; a non-empty name gives the images directory, the mapped cleaned name and ".webp"; a truthy non-string raises `AttributeError`; the same code is at camera.py:235-281, button.py:101-147 |
| Device.ProductImageK1SE | custom_components/creality_control/sensor.py:247 | "K1SE" gives the image "K1_SE.webp" |
| Device.Info | custom_components/creality_control/sensor.py:179-188 | the record holds the host, "Creality", the model, "Workshop", the firmware version, the configuration URL on port 80, the name "Creality" + model, and the product image when the platform has one; it fails exactly when the image does |
| Device.PrinterInfo | custom_components/creality_control/button.py:42-67 | `device_info` of the button, switch and number platforms: the model of the precedence rule and the host; it fails only when a product image is asked for and fails; the switch and number copies (switch.py:94-115, number.py:69-90) ask for no image and never fail |
| Device.DefaultPrinterInfo | custom_components/creality_control/sensor.py:167 | without data, the device is "Creality Creality Printer" with firmware "Unknown" |
| Sensor.UniqueId | custom_components/creality_control/sensor.py:79 | the id is the host, `_`, then the data key |
| Sensor.UniqueIdInjective | custom_components/creality_control/sensor.py:79 | two sensors of one printer share an id iff they read the same key |
| Sensor.Name | custom_components/creality_control/sensor.py:78 | the name is "Creality " followed by the suffix |
| Sensor.State | custom_components/creality_control/sensor.py:92-124 | "Unknown" without data; `printProgress` defaults to 0; `progress` is `printProgress` when present, else the layer calculation; `legacy_progress` is always the layer calculation; any other key is its value or "Unknown" |
| Sensor.LegacyProgress | custom_components/creality_control/sensor.py:104-110 | the calculation reads the current and total layer counts, 0 when missing |
| Sensor.ProgressFollowsPrintProgress | custom_components/creality_control/sensor.py:99-102 | where `printProgress` is present, the `progress` and `printProgress` sensors agree |
| Sensor.OrdinaryState | custom_components/creality_control/sensor.py:95-96 | an ordinary sensor shows its key's value, or "Unknown" |
| Sensor.Pad2Value | custom_components/creality_control/sensor.py:199 | a two-digit field reads back as its number |
| Sensor.TimedeltaStr | custom_components/creality_control/sensor.py:199 | `str(timedelta(seconds=n))` fails with `OverflowError` exactly beyond 999999999 days either way |
| Sensor.TimedeltaUnderADay | custom_components/creality_control/sensor.py:199 | less than a day is the bare H:MM:SS clock |
| Sensor.TimedeltaDays | custom_components/creality_control/sensor.py:199 | a day or more is "D day, " or "D days, " followed by the clock of the remaining seconds |
| Sensor.TimedeltaNegative | custom_components/creality_control/sensor.py:199 | a negative count under a day reads "-1 day, " followed by the clock of the seconds added to a day |
| Sensor.ClockFields | custom_components/creality_control/sensor.py:199 | the clock has three `:`-separated decimal fields; minutes and seconds have two digits and are below 60, and together the fields make up the seconds |
| Sensor.TimeLeftState | custom_components/creality_control/sensor.py:193-199 | "00:00:00" without data; the clock of a value below a day; `int()`'s error when the value does not convert |
| Sensor.TimeLeftMissing | custom_components/creality_control/sensor.py:196-199 | with data but no value, the time left is "0:00:00", not the "00:00:00" shown without data |
| Sensor.DeviceInfoAsWritten | custom_components/creality_control/sensor.py:163-188 | only the firmware sensor has `_get_product_image`; the other two sensor classes raise `AttributeError` |
| Sensor.PlainDeviceInfoFails | custom_components/creality_control/sensor.py:177 | a plain sensor without data fails where the intended default device exists |
| Sensor.EnrichedDeviceModel | custom_components/creality_control/sensor.py:166-174 | for a frame that names no model, the device shows the model inferred from the port |
| Camera.Latin1 | custom_components/creality_control/camera.py:197-203 | the length text is read byte by byte |
| Camera.MarkerTexts | custom_components/creality_control/camera.py:180-189 | the byte markers spell "--boundarydonotcross" and "Content-Length: " |
| Camera.Scan | custom_components/creality_control/camera.py:180-210 | without the boundary there is no frame; a frame starts within the stream |
| Camera.ScanFailures | custom_components/creality_control/camera.py:185-210 | no frame without `Content-Length: ` after the boundary, without the header end, without a CRLF after the length header, or when the length text is not an integer |
| Camera.LineEndAfterHeader | custom_components/creality_control/camera.py:192-195 | the CRLF found after the length header lies past the header text |
| Camera.Cut | custom_components/creality_control/camera.py:212-229 | a frame is `stream[s..s+L]` of length exactly L and starts with FF D8; when `s+L` exceeds the stream there is none; when the slice fits and starts with FF D8 it is returned |
| Camera.ExtractJpeg | custom_components/creality_control/camera.py:172-233 | corrected extractor: no frame when the header scan fails, and a frame has the header's length and starts with FF D8 |
| Camera.CutAsWritten | custom_components/creality_control/camera.py:212-229 | for a non-negative length, the slice as written is the corrected cut |
| Camera.ExtractJpegAsWritten | custom_components/creality_control/camera.py:172-233 | the extractor as written agrees with the corrected one whenever the length is non-negative |
| Camera.ScanPart | custom_components/creality_control/camera.py:180-210 | a well-formed part header is found, with the frame starting after it and the length it declares |
| Camera.ExtractPart | custom_components/creality_control/camera.py:172-233 | both extractors return exactly the JPEG a well-formed part carries, whatever follows it |
| Camera.NegativeLengthCut | custom_components/creality_control/camera.py:212-221 | a length of -46 at offset 45 of 48 bytes slices two bytes as written, where the intended extractor rejects it |
| Camera.NegativeLengthFrame | custom_components/creality_control/camera.py:186-229 | a header declaring `Content-Length: -46` makes the extractor as written return a 2-byte frame, and the intended one none |
| Camera.Available | custom_components/creality_control/camera.py:58-63 | available iff data exists, `video == 1`, and the last update succeeded |
| Camera.CameraImage | custom_components/creality_control/camera.py:65-69 | without data or with video off, no image is fetched; otherwise the result is the fetch's |
| Camera.AvailableFetches | custom_components/creality_control/camera.py:58-69 | an available camera returns what it fetches |
| Camera.CameraModel | custom_components/creality_control/camera.py:29 | the camera's model is `model`, or "Printer" |
| Camera.CameraName | custom_components/creality_control/camera.py:26 | the name is "Creality " + model + " Camera", when the model has a text |
| Camera.CameraUniqueId | custom_components/creality_control/camera.py:27 | the id is the host followed by "_camera" |
| Camera.CameraDeviceInfo | custom_components/creality_control/camera.py:29-41 | the camera's device has its own model rule and always a product image, and fails exactly when the image does |
| Camera.CameraModelAgrees | custom_components/creality_control/camera.py:29 | where the data names a model, the camera and the other platforms agree on it |
| ConfigFlow.FirstPort | custom_components/creality_control/config_flow.py:102-111 | the port found is one of the list whose probe succeeds, with every earlier probe failing; there is none iff every probe fails |
| ConfigFlow.DetectPort | custom_components/creality_control/config_flow.py:102-111 | the search loop finds `FirstPort` over 9999, 18188, 8080, 80 |
| ConfigFlow.DetectOrder | custom_components/creality_control/config_flow.py:105 | the ports are tried in the order 9999, 18188, 8080, 80 |
| ConfigFlow.SearchRaising | custom_components/creality_control/config_flow.py:107-109 | an exception from a probe ends the search |
| ConfigFlow.SearchRaisingTotal | custom_components/creality_control/config_flow.py:102-111 | with probes that do not raise, the search is `FirstPort` |
| ConfigFlow.DetectPortAsWritten | custom_components/creality_control/config_flow.py:102-135 | the search as written raises `UnboundLocalError` on the first port, since the probe as written always raises it |
| ConfigFlow.StatusRequest | custom_components/creality_control/config_flow.py:140-144 | the test sends an object with exactly the keys `cmd` and `token`: `cmd` is "GET_PRINT_STATUS", and the token is text whose Base64 decoding is the ECB encryption, under the fixed key, of the padded password |
| ConfigFlow.TestConnection | custom_components/creality_control/config_flow.py:137-152 | corrected test: `None` when the connection fails; for an object reply, false iff `printStatus` is "TOKEN_ERROR", else true; false only for such an object |
| ConfigFlow.StepUserWith | custom_components/creality_control/config_flow.py:20-44 | the form without input; an entry iff the test gives true, titled "Creality Control" and holding the input; "cannot_connect" for `None`, "invalid_password" for false; never an abort |
| ConfigFlow.StepUser | custom_components/creality_control/config_flow.py:20-44 | with the connection test of config_flow.py:137-152: without input, the empty form; with input: no reply, or a reply that is null, a number or a boolean, gives "cannot_connect"; an object reply gives "invalid_password" when its `printStatus` is "TOKEN_ERROR" and otherwise the entry titled "Creality Control" holding the input; a list reply holding the string "printStatus", or a string reply containing it, gives "cannot_connect" (the lookup raises), and any other list or string the entry; "invalid_password" comes only from an object reply |
| ConfigFlow.StepUserAsWritten | custom_components/creality_control/config_flow.py:20-44 | as written, without input the empty form, and with input always "cannot_connect", whatever the printer answers: the test as written never succeeds (config_flow.py:145) |
| ConfigFlow.SsdpHost | custom_components/creality_control/config_flow.py:51 | after removing every "http://", the host is the text before the first `/`, and holds no `/` |
| ConfigFlow.SsdpHostOfUrl | custom_components/creality_control/config_flow.py:51 | "http://host/path" gives back the host |
| ConfigFlow.DiscoveryId | custom_components/creality_control/config_flow.py:61 | the unique id holds the host, then `:` at the host's length, then the decimal port and nothing else |
| ConfigFlow.DiscoveryIdInjective | custom_components/creality_control/config_flow.py:61 | for hosts without `:`, equal ids mean equal hosts and ports |
| ConfigFlow.Discovered | custom_components/creality_control/config_flow.py:61-71 | aborts "already_configured" iff the id is configured; otherwise creates "Creality Printer (host)" with the host, the port and an empty password |
| ConfigFlow.AfterSearch | custom_components/creality_control/config_flow.py:56-71 | a failed search aborts "no_port"; a found port goes on to discovery |
| ConfigFlow.StepSsdp | custom_components/creality_control/config_flow.py:46-71 | corrected SSDP step: "no_host" for an empty host; "no_port" when no probe succeeds; otherwise discovery on the first port found |
| ConfigFlow.StepSsdpAsWritten | custom_components/creality_control/config_flow.py:46-71 | as written, an empty host aborts "no_host", and any other host raises |
| ConfigFlow.StepZeroconf | custom_components/creality_control/config_flow.py:73-100 | corrected Zeroconf step: "no_host" without a host; discovery on the advertised port when one is given; otherwise the search's port or "no_port" |
| ConfigFlow.StepZeroconfAsWritten | custom_components/creality_control/config_flow.py:83-87 | as written, a host without an advertised port raises |
| ConfigFlow.ZeroconfAgrees | custom_components/creality_control/config_flow.py:73-100 | without a search the step as written and the corrected one agree |
| ConfigFlow.DiscoveredPortAnswers | custom_components/creality_control/config_flow.py:83-100 | an entry's port is either the advertised one or one of the four whose probe succeeded |
| Button.UniqueId | custom_components/creality_control/button.py:36 | the id is the host, `_`, then the command |
| Button.SetupButtons | custom_components/creality_control/button.py:9-24 | the list starts with pause/resume and stop; it has the seven G-code buttons after them iff the model is "K1C", "K1" or "K1 Max", and is those two otherwise |
| Button.CommandsDistinct | custom_components/creality_control/button.py:9-24 | the nine commands are distinct |
| Button.UniqueIdsDistinct | custom_components/creality_control/button.py:36 | distinct commands give distinct ids |
| Button.Press | custom_components/creality_control/button.py:38-40 | pressing sends exactly the button's command through the coordinator's `send_command` |
| Switch.UniqueId | custom_components/creality_control/switch.py:24 | the id is the host, "_switch_", then the type |
| Switch.UniqueIdsDistinct | custom_components/creality_control/switch.py:11-15 | the fan and the light have different ids |
| Switch.IsOn | custom_components/creality_control/switch.py:39-50 | off without data or without the key (`fan` or `lightSw`); otherwise the truthiness of its value |
| Switch.SetMessage | custom_components/creality_control/switch.py:57-59 | the message has exactly the keys `method`, which is "set", and `params`, which maps the key to the value |
| Switch.ReadsBack | custom_components/creality_control/switch.py:52-76 | a frame that applies the on message reads on, one that applies the off message reads off, and the other switch keeps its state |
| Number.DeclaredRange | custom_components/creality_control/number.py:11-14 | nozzle 0–300, bed 0–150, step 1, unit °C |
| Number.UniqueId | custom_components/creality_control/number.py:24 | the id is the host, "_temp_", then the type |
| Number.UniqueIdsDistinct | custom_components/creality_control/number.py:11-14 | the nozzle and the bed have different ids |
| Number.FloatOf | custom_components/creality_control/number.py:49-52 | `float()` of an int or a float is its value; it raises exactly for null, lists and objects |
| Number.NativeValue | custom_components/creality_control/number.py:41-52 | 0 without data or without the key (`targetNozzleTemp` or `targetBedTemp0`); otherwise `float()` of its value |
| Number.SetNativeValue | custom_components/creality_control/number.py:54-57 | the command names the type, and its temperature is the value truncated toward zero |
| Number.SetInRange | custom_components/creality_control/number.py:12-13 | a value in the declared range is sent in the range |
| Number.ReadsBack | custom_components/creality_control/number.py:41-57 | a frame holding the sent temperature reads back as it, and as the value itself when that is whole |
| Entity.AvailableOn | custom_components/creality_control/switch.py:86-92 | without a client: `last_update_success`; with one: its health check, so available only when connected and heard from within 90 seconds |
| Entity.UnhealthyUnavailable | custom_components/creality_control/switch.py:86-92 | a client that is not connected makes the entity unavailable, and its fields do not change |
| Entity.Available | custom_components/creality_control/number.py:61-67 | the availability check gives `AvailableOn`, updates the client as `is_healthy` does, and sends nothing |
| Json.PyStr | custom_components/creality_control/sensor.py:181 | `str()` of a string is itself and of an integer its decimal text |
| Json.Truncate | custom_components/creality_control/number.py:56 | `int()` of a float truncates toward zero |
| Json.IntOf | custom_components/creality_control/sensor.py:198 | `int()` of an int is itself, raises `TypeError` for null, lists and objects, and converts a string iff it parses |
| Text.Find | custom_components/creality_control/camera.py:180-210 | `find` returns the first occurrence at or after the start, or -1 |
| Text.Split | custom_components/creality_control/sensor.py:143 | `split` yields at least one part, no part holds the separator, and joining gives the text back |
| Text.SplitJoin | custom_components/creality_control/sensor.py:143 | splitting joined parts gives them back |
| Text.ReplaceCharIsReplace | custom_components/creality_control/sensor.py:243 | replacing a one-character pattern replaces each occurrence of the character |
| Text.StripBy | custom_components/creality_control/sensor.py:146 | `strip` removes the white space at both ends and nothing else |
| Text.DecimalRoundTrip | custom_components/creality_control/config_flow.py:61 | the decimal text of a number reads back as the number |
| Text.IntDecimalInjective | custom_components/creality_control/config_flow.py:61 | different integers have different decimal texts |
| Text.ParseIntRoundTrip | custom_components/creality_control/sensor.py:198 | `int()` reads back what `str()` writes |

## Left out

- Network traffic: `aiohttp` sessions, `ws_connect`, `send_json`, `receive_json` and `iter_chunked`. The socket is an open flag plus an outbox, and what arrives is a parameter.
- asyncio tasks, cancellation, and waiting on the run task in `stop()`. The model has no concurrency.
- The random jitter and `asyncio.sleep` in `_handle_connection_error` (`__init__.py:221-225`). They are random and floating point, so the model returns the integer pre-jitter delay.
- The DES block cipher. It is a foreign library, so the model takes it as the parameter `Token.Cipher` on 8-byte blocks.
- Float progress arithmetic and `round` (`sensor.py:104-110`, `116-122`). `Sensor.LegacyProgress` returns the two layer counts the calculation reads.
- Sensor.State: does not compute the float percentage of the legacy calculation; it returns its inputs.
- `Json.PyStr`: `str()` of floats, lists and dicts is not rendered. Floating-point text formatting is not modelled.
- `Text.UpperAscii`: upper-cases ASCII letters only. There is no Unicode case mapping.
- Number.FloatOf: `float()` of a string is kept as the text (`FloatOfText`), because float parsing would need floating-point text conversion. A float is a real number, so the rounding of `float()` to an IEEE double, and its `OverflowError` for integers beyond about 1.8e308, are not modelled.
- Json.IntOf: `int()` of a string accepts only ASCII digits, where Python also accepts other Unicode decimal digits (`int("٣") == 3`). Such a string is `Err(ValueError)` in the model; it reaches `Sensor.TimeLeftState`.
- Text.ParseInt: reads ASCII digits only, for the same reason: there is no Unicode digit table.
- The camera's chunk-accumulation loop and its 1 MB cap (`camera.py:84-113`). This is network I/O; the fetch result is a parameter of `Camera.CameraImage`.
- The camera's `is_recording`, `brand` and `model` properties (`camera.py:125-138`). They are display text that the extractor and availability do not use.
- Home Assistant setup and unload of platforms, the `hass.data` registry, form schema rendering, and logging.
- The sensor platform's entity list (`sensor.py:5-71`). It is platform setup.
- The integration's module-level SSDP handler, `_detect_creality_port` and `_test_creality_connection` (`__init__.py:372-429`). They are HA glue that duplicates the config flow; the config flow's copies are modelled.
- `last_update_success` and the refresh schedule of Home Assistant's coordinator. They are parameters.
- `send_websocket_command` and `send_temp_command`. `switch.py:57` and `number.py:57` call them, but the coordinator in `__init__.py` does not define them. The model returns the message (`Switch.TurnOn`, `Switch.TurnOff`) and the arguments (`Number.SetNativeValue`); what the printer then does is the parameter of `Switch.ReadsBack` and `Number.ReadsBack`.
- The `_shutdown` check inside the message loop (`__init__.py:157`). Only a concurrent `stop()` can set the flag there, and the model has no concurrency.
- JSON text frames that decode to something other than an object (`WsMessage.Text` holds only objects). In the source, a falsy one only stamps the message time. A truthy number or boolean raises `TypeError` at `"model" not in data` (`__init__.py:189`); the loop re-raises it (`__init__.py:180-182`) and `_run` handles it as a connection error. A string or list lacking "model" raises `TypeError` at the assignment on ports 9999 and 18188 (`__init__.py:191-195`), and on other ports becomes the coordinator's data.
- Poll replies that decode to something other than an object (`PollReply.Answer` holds only objects). The same checks at `__init__.py:307-314` raise, which `_poll_data` turns into `UpdateFailed`, or return the string or list unchanged on other ports.
- test_endpoint.py, a one-off request to a remote endpoint.

## Findings

| source | as written | input that shows it | evidently intended | confidence | as-written member | corrected member |
|---|---|---|---|---|---|---|
| custom_components/creality_control/sensor.py:177 | `CrealitySensor.device_info` calls `self._get_product_image`, which only `CrealityFirmwareSensor` defines | any plain or time-left sensor, even without data | every sensor shows the printer's device with its product image | not executed | Sensor.DeviceInfoAsWritten, Sensor.PlainDeviceInfoFails | Device.PrinterInfo, Device.DefaultPrinterInfo |
| custom_components/creality_control/camera.py:212-221 | the bounds check `end > len` lets a negative Content-Length through, and Python's slice then counts from the end | a 45-byte header declaring `Content-Length: -46`, followed by FF D8 and one byte | a declared length below 0 yields no frame; a frame's length is the declared length | not executed | Camera.ExtractJpegAsWritten, Camera.NegativeLengthFrame | Camera.ExtractJpeg, Camera.ExtractPart |
| custom_components/creality_control/config_flow.py:145 | `async_timeout` is not imported, so the `NameError` is caught and `_test_connection` always returns `None` | any user input, with any reply | a reply without "TOKEN_ERROR" creates the entry | not executed | ConfigFlow.StepUserAsWritten | ConfigFlow.StepUser |
| custom_components/creality_control/config_flow.py:116, 134-135 | `aiohttp` is not imported (only names from it); the `NameError` is caught, and then `finally` closes an unbound `session`, raising `UnboundLocalError` | any discovered host that needs the port search | the probe answers, and the search returns the first port that answers | not executed | ConfigFlow.DetectPortAsWritten, ConfigFlow.StepSsdpAsWritten | ConfigFlow.DetectPort, ConfigFlow.SearchRaisingTotal |
| custom_components/creality_control/__init__.py:122-123, 299 | `async_get_clientsession` is an ordinary function returning the session, and its result is awaited; awaiting a session raises `TypeError`. In `_connect` this is outside the `try`, after the state became `CONNECTING`, and `self.session` is never set; in `_poll_data` it is inside the `try` | any pass of the drive loop from a client that is not connected, whatever the printer does; any poll | the session is taken without `await`; the handshake then decides, and a poll returns the printer's answer | not executed | Integration.ConnectStepAsWritten, Integration.AsWrittenPassRefused, Integration.AsWrittenRunNeverConnects, Integration.PollAsWrittenFails | Integration.ConnectStep, Integration.ConnectedPass, Integration.Coordinator.PollData |
