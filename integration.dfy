/** The WebSocket client and the data coordinator of the integration (`__init__.py`).
    Every operation of `CrealityWebSocketClient` that changes the connection is a method of
    `WebSocketClient` whose new state is a step function of the old one; the step functions
    are defined first, over `Link`, a value holding the client's fields, and the properties of
    the reconnect policy are lemmas about them. */
module Integration {
  import opened Base
  import opened Json
  import Token

  datatype ConnectionState = Disconnected | Connecting | Connected | Stale | Reconnecting

  const MaxReconnectAttempts: nat := 10
  const MaxReconnectDelay: nat := 60
  const StaleThreshold: real := 90.0
  const StatusCommand: string := "GET_PRINT_STATUS"

  // ---------------------------------------------------------------- enrichment

  /** The model the integration infers from the port when a frame names none. */
  function InferredModel(port: int): (m: Option<string>)
    ensures m.Some? <==> port == 9999 || port == 18188
  {
    if port == 9999 then Some("K1 Series (FDM)")
    else if port == 18188 then Some("Halot Series (Resin)")
    else None
  }

  /** The model inference that `_handle_message` and `_poll_data` apply to a frame: when
      neither `model` nor `printerModel` is present and the port is a known one,
      `detected_model` is set; nothing else in the frame changes. */
  function Enrich(frame: Frame, port: int): (r: Frame)
    ensures forall k :: k in frame && k != "detected_model" ==> k in r && r[k] == frame[k]
    ensures forall k :: k in r ==> k in frame || k == "detected_model"
    ensures ("model" in frame || "printerModel" in frame || InferredModel(port).None?) ==> r == frame
    ensures "model" !in frame && "printerModel" !in frame && InferredModel(port).Some? ==>
              "detected_model" in r && r["detected_model"] == Str(InferredModel(port).value)
  {
    if "model" in frame || "printerModel" in frame then frame
    else match InferredModel(port)
      case None => frame
      case Some(name) => frame["detected_model" := Str(name)]
  }

  /** Enriching twice is enriching once. */
  lemma EnrichIdempotent(frame: Frame, port: int)
    ensures Enrich(Enrich(frame, port), port) == Enrich(frame, port)
  {
  }

  /** `{"cmd": command, "token": token}`, the frame every command is sent as. */
  function CommandFrame(command: string, token: string): (v: Value)
    ensures v.Obj? && v.fields.Keys == {"cmd", "token"}
    ensures v.fields["cmd"] == Str(command) && v.fields["token"] == Str(token)
  {
    Obj(map["cmd" := Str(command), "token" := Str(token)])
  }

  // ---------------------------------------------------------------- backoff

  function Pow2(n: nat): (r: nat)
    ensures r >= 1
  {
    if n == 0 then 1 else 2 * Pow2(n - 1)
  }

  /** The pre-jitter delay before reconnect attempt `attempts`: `min(2^attempts, 60)`. */
  function Backoff(attempts: nat): (d: nat)
    ensures 1 <= d <= MaxReconnectDelay
    ensures d == MaxReconnectDelay || d == Pow2(attempts)
    ensures d <= Pow2(attempts)
  {
    if Pow2(attempts) < MaxReconnectDelay then Pow2(attempts) else MaxReconnectDelay
  }

  lemma {:induction false} Pow2Monotone(i: nat, j: nat)
    requires i <= j
    ensures Pow2(i) <= Pow2(j)
    decreases j - i
  {
    if i < j {
      Pow2Monotone(i, j - 1);
    }
  }

  /** A later attempt never waits less. */
  lemma BackoffMonotone(i: nat, j: nat)
    requires i <= j
    ensures Backoff(i) <= Backoff(j)
  {
    Pow2Monotone(i, j);
  }

  /** From the sixth attempt on, the delay is the 60-second cap. */
  lemma BackoffCapped(n: nat)
    requires n >= 6
    ensures Backoff(n) == MaxReconnectDelay
  {
    assert Pow2(6) == 64;
    Pow2Monotone(6, n);
  }

  /** The delays of attempts 1 to 10. */
  lemma BackoffSchedule()
    ensures Backoff(1) == 2 && Backoff(2) == 4 && Backoff(3) == 8 && Backoff(4) == 16
    ensures Backoff(5) == 32
    ensures Backoff(6) == Backoff(7) == Backoff(8) == Backoff(9) == Backoff(10) == 60
  {
    assert Pow2(5) == 32;
    BackoffCapped(6);
    BackoffCapped(7);
    BackoffCapped(8);
    BackoffCapped(9);
    BackoffCapped(10);
  }

  // ---------------------------------------------------------------- the client's fields

  datatype Transition = Transition(from: ConnectionState, to: ConnectionState)

  /** The fields of a `CrealityWebSocketClient` that its connection logic reads and writes;
      `socketOpen` says whether `ws` is an open socket, and `log` records every state
      change `_set_state` makes. */
  datatype Link = Link(state: ConnectionState, lastMessageTime: real, reconnectAttempts: nat,
                       shutdown: bool, socketOpen: bool, log: seq<Transition>)

  /** The fields right after `__init__`. */
  const InitialLink := Link(Disconnected, 0.0, 0, false, false, [])

  /** The log is a chain of real changes that starts in `Disconnected` and ends in `state`. */
  predicate Chained(log: seq<Transition>, state: ConnectionState) {
    && (log == [] ==> state == Disconnected)
    && (log != [] ==> log[0].from == Disconnected && log[|log| - 1].to == state)
    && (forall i :: 0 <= i < |log| ==> log[i].from != log[i].to)
    && (forall i :: 0 < i < |log| ==> log[i - 1].to == log[i].from)
  }

  /** What every step keeps: at most 10 attempts, none while the link is up or stale, at
      least one while reconnecting, and a chained log. */
  predicate ValidLink(l: Link) {
    && l.reconnectAttempts <= MaxReconnectAttempts
    && (l.state == Connected || l.state == Stale ==> l.reconnectAttempts == 0)
    && (l.state == Reconnecting ==> l.reconnectAttempts >= 1)
    && Chained(l.log, l.state)
  }

  lemma InitialLinkValid()
    ensures ValidLink(InitialLink)
  {
  }

  // ---------------------------------------------------------------- the steps

  /** `_set_state`: the state, and the log, change only when the new state differs. */
  function WithState(l: Link, s: ConnectionState): (r: Link)
    ensures r.state == s
    ensures l.state == s ==> r == l
    ensures l.state != s ==> r.(log := l.log) == l.(state := s) && r.log == l.log + [Transition(l.state, s)]
  {
    if l.state == s then l else l.(state := s, log := l.log + [Transition(l.state, s)])
  }

  lemma WithStateChains(l: Link, s: ConnectionState)
    requires Chained(l.log, l.state)
    ensures Chained(WithState(l, s).log, s)
  {
    var r := WithState(l, s);
    if l.state != s {
      assert forall i :: 0 <= i < |l.log| ==> r.log[i] == l.log[i];
    }
  }

  /** `is_healthy(now)`: true exactly when connected and a message arrived within the
      last 90 seconds; a connected link that has gone silent longer becomes `Stale`. */
  function HealthCheck(l: Link, now: real): (r: (bool, Link))
    ensures l.state != Connected ==> r == (false, l)
    ensures l.state == Connected ==> (r.0 <==> now - l.lastMessageTime <= StaleThreshold)
    ensures r.0 ==> r.1 == l
    ensures l.state == Connected && !r.0 ==> r.1 == WithState(l, Stale)
  {
    if l.state != Connected then (false, l)
    else if now - l.lastMessageTime > StaleThreshold then
      (false, if l.state != Stale then WithState(l, Stale) else l)
    else (true, l)
  }

  /** `_connect()`, where `handshakeOk` says whether `ws_connect` succeeds; the first
      component says whether it raised. */
  function ConnectStep(l: Link, now: real, handshakeOk: bool): (r: (bool, Link))
    ensures l.state == Connected ==> r == (false, l)
    ensures l.state != Connected && handshakeOk ==>
              && !r.0 && r.1.state == Connected && r.1.reconnectAttempts == 0
              && r.1.lastMessageTime == now && r.1.socketOpen && r.1.shutdown == l.shutdown
    ensures l.state != Connected && !handshakeOk ==> r == (true, WithState(l, Connecting))
  {
    if l.state == Connected then (false, l)
    else
      var c := WithState(l, Connecting);
      if handshakeOk then
        (false, WithState(c, Connected).(reconnectAttempts := 0, lastMessageTime := now, socketOpen := true))
      else (true, c)
  }

  /** `_disconnect()`: the socket is closed and the state becomes `Disconnected`. */
  function DisconnectStep(l: Link): (r: Link)
    ensures !r.socketOpen && r.state == Disconnected
    ensures r.reconnectAttempts == l.reconnectAttempts && r.shutdown == l.shutdown
    ensures r.lastMessageTime == l.lastMessageTime
  {
    WithState(l.(socketOpen := false), Disconnected)
  }

  /** `_handle_connection_error()`: disconnect; then, unless shutting down or out of
      attempts, count the attempt, become `Reconnecting` and return its pre-jitter delay. */
  function ErrorStep(l: Link): (r: (Option<nat>, Link))
    ensures !r.1.socketOpen && r.1.shutdown == l.shutdown
    ensures l.shutdown || l.reconnectAttempts >= MaxReconnectAttempts ==>
              r.0 == None && r.1.state == Disconnected && r.1.reconnectAttempts == l.reconnectAttempts
    ensures !l.shutdown && l.reconnectAttempts < MaxReconnectAttempts ==>
              && r.1.state == Reconnecting && r.1.reconnectAttempts == l.reconnectAttempts + 1
              && r.0 == Some(Backoff(r.1.reconnectAttempts))
  {
    var d := DisconnectStep(l);
    if d.shutdown then (None, d)
    else if d.reconnectAttempts >= MaxReconnectAttempts then (None, WithState(d, Disconnected))
    else
      var r := WithState(d, Reconnecting);
      var attempts := r.reconnectAttempts + 1;
      (Some(Backoff(attempts)), r.(reconnectAttempts := attempts))
  }

  /** The gate of `send_command`. */
  predicate CanSend(l: Link) {
    l.state == Connected && l.socketOpen
  }

  /** `send_command(command)`: whether it returns true, and the outbox after it;
      `writeOk` says whether `send_json` succeeds. */
  function SendStep(l: Link, outbox: seq<Value>, command: string, token: string, writeOk: bool)
    : (r: (bool, seq<Value>))
    ensures r.0 <==> CanSend(l) && writeOk
    ensures r.1 == if r.0 then outbox + [CommandFrame(command, token)] else outbox
  {
    if !CanSend(l) then (false, outbox)
    else if writeOk then (true, outbox + [CommandFrame(command, token)])
    else (false, outbox)
  }

  /** The steps keep `ValidLink`. */
  lemma HealthCheckKeepsValid(l: Link, now: real)
    requires ValidLink(l)
    ensures ValidLink(HealthCheck(l, now).1)
  {
    WithStateChains(l, Stale);
  }

  lemma ConnectKeepsValid(l: Link, now: real, handshakeOk: bool)
    requires ValidLink(l)
    ensures ValidLink(ConnectStep(l, now, handshakeOk).1)
  {
    WithStateChains(l, Connecting);
    WithStateChains(WithState(l, Connecting), Connected);
  }

  lemma DisconnectKeepsValid(l: Link)
    requires ValidLink(l)
    ensures ValidLink(DisconnectStep(l))
  {
    WithStateChains(l.(socketOpen := false), Disconnected);
  }

  lemma ErrorKeepsValid(l: Link)
    requires ValidLink(l)
    ensures ValidLink(ErrorStep(l).1)
  {
    var d := DisconnectStep(l);
    DisconnectKeepsValid(l);
    WithStateChains(d, Disconnected);
    WithStateChains(d, Reconnecting);
  }

  /** Once `is_healthy` has found the link silent, it stays unhealthy whatever the time. */
  lemma StaleIsSticky(l: Link, t1: real, t2: real)
    requires l.state == Connected && !HealthCheck(l, t1).0
    ensures HealthCheck(l, t1).1.state == Stale
    ensures HealthCheck(HealthCheck(l, t1).1, t2) == (false, HealthCheck(l, t1).1)
  {
  }

  /** Only a successful `_connect` leaves `Stale`, and it always goes to `Connected`. */
  lemma OnlyConnectLeavesStale(l: Link, now: real, handshakeOk: bool)
    requires l.state == Stale
    ensures HealthCheck(l, now).1.state == Stale
    ensures ConnectStep(l, now, handshakeOk).1.state == (if handshakeOk then Connected else Connecting)
    ensures ErrorStep(l).1.state != Connected && DisconnectStep(l).state != Connected
  {
  }

  /** A link that has used up its attempts still tries `_connect` on every pass of the
      drive loop, and each failure leaves it `Disconnected` with no delay. */
  lemma ExhaustedStillConnects(l: Link, now: real)
    requires ValidLink(l) && !l.shutdown && l.reconnectAttempts == MaxReconnectAttempts
    ensures ConnectStep(l, now, false) == (true, WithState(l, Connecting))
    ensures ErrorStep(ConnectStep(l, now, false).1).0 == None
    ensures ErrorStep(ConnectStep(l, now, false).1).1.state == Disconnected
    ensures ErrorStep(ConnectStep(l, now, false).1).1.reconnectAttempts == MaxReconnectAttempts
  {
  }

  /** The delays of `n` passes of the drive loop whose `_connect` fails each time. */
  function FailedRounds(l: Link, n: nat): (ds: seq<Option<nat>>)
    ensures |ds| == n
    decreases n
  {
    if n == 0 then []
    else
      var e := ErrorStep(ConnectStep(l, 0.0, false).1);
      [e.0] + FailedRounds(e.1, n - 1)
  }

  /** One failing pass: `_connect` raises and `_handle_connection_error` counts the attempt
      while fewer than 10 were made. */
  lemma FailedRound(l: Link)
    requires !l.shutdown && l.state != Connected
    ensures var e := ErrorStep(ConnectStep(l, 0.0, false).1);
      && !e.1.shutdown && e.1.state != Connected
      && e.1.reconnectAttempts == (if l.reconnectAttempts < MaxReconnectAttempts
                                   then l.reconnectAttempts + 1 else l.reconnectAttempts)
      && e.0 == (if l.reconnectAttempts < MaxReconnectAttempts
                 then Some(Backoff(l.reconnectAttempts + 1)) else None)
  {
  }

  /** The delays of `n` failures one after another, starting with `a` attempts counted:
      `Backoff(a + 1)`, `Backoff(a + 2)`, ... while fewer than 10 attempts were made, and no
      delay after that. */
  function RetryDelays(a: nat, n: nat): (ds: seq<Option<nat>>)
    ensures |ds| == n
    decreases n
  {
    if n == 0 then []
    else if a < MaxReconnectAttempts then [Some(Backoff(a + 1))] + RetryDelays(a + 1, n - 1)
    else [None] + RetryDelays(a, n - 1)
  }

  /** Failing passes of the drive loop wait exactly the `RetryDelays`. */
  lemma {:induction false} FailedRoundsDelays(l: Link, n: nat)
    requires !l.shutdown && l.state != Connected
    ensures FailedRounds(l, n) == RetryDelays(l.reconnectAttempts, n)
    decreases n
  {
    if n > 0 {
      var e := ErrorStep(ConnectStep(l, 0.0, false).1);
      assert FailedRounds(l, n) == [e.0] + FailedRounds(e.1, n - 1);
      FailedRound(l);
      FailedRoundsDelays(e.1, n - 1);
      RetryStep(l.reconnectAttempts, n);
    }
  }

  /** A client with no attempts counted, such as a fresh one, whose printer never answers
      waits 2, 4, 8, 16, 32 and then 60 seconds five times, and from the eleventh failure on
      does not wait at all. */
  lemma UnansweredRetries(l: Link)
    requires !l.shutdown && l.state != Connected && l.reconnectAttempts == 0
    ensures FailedRounds(l, 11)
         == [Some(2), Some(4), Some(8), Some(16), Some(32), Some(60), Some(60), Some(60),
             Some(60), Some(60), None]
  {
    FailedRoundsDelays(l, 11);
    FreshRetryDelays(l.reconnectAttempts);
  }

  lemma RetryStep(a: nat, n: nat)
    requires 0 < n
    ensures RetryDelays(a, n)
         == [if a < MaxReconnectAttempts then Some(Backoff(a + 1)) else None]
            + RetryDelays(if a < MaxReconnectAttempts then a + 1 else a, n - 1)
  {
  }

  /** The `k`-th delay of `RetryDelays`. */
  lemma {:induction false} RetryDelayAt(a: nat, n: nat, k: nat)
    requires k < n
    ensures RetryDelays(a, n)[k]
         == if a + k < MaxReconnectAttempts then Some(Backoff(a + k + 1)) else None
    decreases n
  {
    var next := if a < MaxReconnectAttempts then a + 1 else a;
    var head := if a < MaxReconnectAttempts then Some(Backoff(a + 1)) else None;
    RetryStep(a, n);
    if k > 0 {
      RetryDelayAt(next, n - 1, k - 1);
      assert RetryDelays(a, n)[k] == RetryDelays(next, n - 1)[k - 1];
    }
  }

  lemma FreshRetryDelays(a: nat)
    requires a == 0
    ensures RetryDelays(a, 11)
         == [Some(2), Some(4), Some(8), Some(16), Some(32), Some(60), Some(60), Some(60),
             Some(60), Some(60), None]
  {
    var f := RetryDelays(a, 11);
    BackoffSchedule();
    RetryDelayAt(a, 11, 0);
    RetryDelayAt(a, 11, 1);
    RetryDelayAt(a, 11, 2);
    RetryDelayAt(a, 11, 3);
    RetryDelayAt(a, 11, 4);
    RetryDelayAt(a, 11, 5);
    RetryDelayAt(a, 11, 6);
    RetryDelayAt(a, 11, 7);
    RetryDelayAt(a, 11, 8);
    RetryDelayAt(a, 11, 9);
    RetryDelayAt(a, 11, 10);
    ElevenDelays(f);
  }

  lemma ElevenDelays(f: seq<Option<nat>>)
    requires |f| == 11
    requires f[0] == Some(2) && f[1] == Some(4) && f[2] == Some(8) && f[3] == Some(16)
    requires f[4] == Some(32) && f[5] == Some(60) && f[6] == Some(60) && f[7] == Some(60)
    requires f[8] == Some(60) && f[9] == Some(60) && f[10] == None
    ensures f == [Some(2), Some(4), Some(8), Some(16), Some(32), Some(60), Some(60), Some(60),
                  Some(60), Some(60), None]
  {
  }

  // ---------------------------------------------------------------- incoming messages

  /** One WebSocket message as `_message_loop` sees it: a text frame carries the decoded
      JSON object, or `None` when it is not valid JSON. */
  datatype WsMessage = Text(payload: Option<Frame>) | ErrorFrame | CloseFrame | Ping | Pong

  /** How the message stream ends when no ERROR or CLOSE frame stops the loop first. */
  datatype StreamEnd = Exhausted | ReceiveTimeout | ReceiveFailed

  predicate IsStop(m: WsMessage) {
    m.ErrorFrame? || m.CloseFrame?
  }

  /** The index of the first ERROR or CLOSE frame, or the length when there is none. */
  function StopIndex(ms: seq<(real, WsMessage)>): (k: nat)
    ensures k <= |ms|
    ensures forall i :: 0 <= i < k ==> !IsStop(ms[i].1)
    ensures k < |ms| ==> IsStop(ms[k].1)
    decreases |ms|
  {
    if |ms| == 0 || IsStop(ms[0].1) then 0 else 1 + StopIndex(ms[1..])
  }

  /** The messages the loop reads: up to and including the first ERROR or CLOSE frame. */
  function Consumed(ms: seq<(real, WsMessage)>): (c: seq<(real, WsMessage)>)
    ensures c <= ms
  {
    if StopIndex(ms) < |ms| then ms[..StopIndex(ms) + 1] else ms
  }

  /** Nothing after a stopping frame is read. */
  lemma ConsumedIgnoresRest(ms: seq<(real, WsMessage)>, more: seq<(real, WsMessage)>)
    requires StopIndex(ms) < |ms|
    ensures Consumed(ms + more) == Consumed(ms)
  {
    var k := StopIndex(ms);
    StopIndexOfPrefix(ms, more);
    TakeOfAppend(ms, more, k + 1);
  }

  lemma TakeOfAppend<T>(s: seq<T>, t: seq<T>, j: nat)
    requires j <= |s|
    ensures (s + t)[..j] == s[..j]
  {
  }

  lemma {:induction false} StopIndexOfPrefix(ms: seq<(real, WsMessage)>, more: seq<(real, WsMessage)>)
    requires StopIndex(ms) < |ms|
    ensures StopIndex(ms + more) == StopIndex(ms)
    decreases |ms|
  {
    if !IsStop(ms[0].1) {
      assert (ms + more)[1..] == ms[1..] + more;
      StopIndexOfPrefix(ms[1..], more);
    }
  }

  /** What the messages change: the client's `last_message_time` and the coordinator's
      `data` and number of listener updates. */
  datatype Received = Received(lastMessageTime: real, data: Option<Frame>, updates: nat)

  /** `_handle_message(frame)` at time `now`: the time is always stamped; a non-empty frame,
      enriched, replaces the coordinator's data and the listeners are told. */
  function HandleFrame(r: Received, now: real, frame: Frame, port: int): (s: Received)
    ensures s.lastMessageTime == now
    ensures frame == map[] ==> s.data == r.data && s.updates == r.updates
    ensures frame != map[] ==> s.data == Some(Enrich(frame, port)) && s.updates == r.updates + 1
  {
    if frame != map[] then Received(now, Some(Enrich(frame, port)), r.updates + 1)
    else r.(lastMessageTime := now)
  }

  /** One message of the loop: only a text frame holding valid JSON is handled. */
  function Deliver(r: Received, m: (real, WsMessage), port: int): Received {
    match m.1
    case Text(Some(frame)) => HandleFrame(r, m.0, frame, port)
    case _ => r
  }

  /** The messages in order. */
  function DeliverAll(r: Received, ms: seq<(real, WsMessage)>, port: int): Received
    decreases |ms|
  {
    if ms == [] then r else Deliver(DeliverAll(r, ms[..|ms| - 1], port), ms[|ms| - 1], port)
  }

  lemma DeliverNext(r: Received, ms: seq<(real, WsMessage)>, i: nat, port: int)
    requires i < |ms|
    ensures DeliverAll(r, ms[..i + 1], port) == Deliver(DeliverAll(r, ms[..i], port), ms[i], port)
  {
    assert ms[..i + 1][..i] == ms[..i];
  }

  /** The stopping frame itself changes nothing. */
  lemma DeliverConsumed(r: Received, ms: seq<(real, WsMessage)>, port: int)
    ensures DeliverAll(r, Consumed(ms), port) == DeliverAll(r, ms[..StopIndex(ms)], port)
  {
    var k := StopIndex(ms);
    if k < |ms| {
      DeliverNext(r, ms, k, port);
    } else {
      assert ms[..k] == ms;
    }
  }

  predicate IsFrame(m: WsMessage) {
    m.Text? && m.payload.Some? && m.payload.value != map[]
  }

  /** The number of non-empty frames among the messages. */
  function FrameCount(ms: seq<(real, WsMessage)>): (n: nat)
    ensures n <= |ms|
    decreases |ms|
  {
    if ms == [] then 0 else FrameCount(ms[..|ms| - 1]) + (if IsFrame(ms[|ms| - 1].1) then 1 else 0)
  }

  /** Frames replace the data instead of merging into it: after the messages, the data is
      the last non-empty frame, enriched, whatever it was before; and the listeners have
      been told once per non-empty frame. */
  lemma {:induction false} LastFrameWins(r: Received, ms: seq<(real, WsMessage)>, port: int, k: nat)
    requires k < |ms| && IsFrame(ms[k].1)
    requires forall i :: k < i < |ms| ==> !IsFrame(ms[i].1)
    ensures DeliverAll(r, ms, port).data == Some(Enrich(ms[k].1.payload.value, port))
    decreases |ms|
  {
    var ms' := ms[..|ms| - 1];
    if k < |ms| - 1 {
      assert forall i :: k < i < |ms'| ==> ms'[i] == ms[i];
      LastFrameWins(r, ms', port, k);
    }
  }

  lemma {:induction false} UpdatesCountFrames(r: Received, ms: seq<(real, WsMessage)>, port: int)
    ensures DeliverAll(r, ms, port).updates == r.updates + FrameCount(ms)
    decreases |ms|
  {
    if ms != [] {
      UpdatesCountFrames(r, ms[..|ms| - 1], port);
    }
  }

  /** What `_message_loop` does with the socket: the loop ends, without raising, at an
      ERROR or CLOSE frame, at the end of the stream or at a receive timeout; a receive
      failure raises. An ERROR or CLOSE frame and the end of the stream mean the socket
      has been closed. */
  function LoopRaises(ms: seq<(real, WsMessage)>, ending: StreamEnd): bool {
    StopIndex(ms) == |ms| && ending == ReceiveFailed
  }

  function LoopClosesSocket(ms: seq<(real, WsMessage)>, ending: StreamEnd): bool {
    StopIndex(ms) < |ms| || ending == Exhausted
  }

  // ---------------------------------------------------------------- the drive loop

  /** The inputs of one pass of the drive loop: whether the handshake succeeds, the
      messages that then arrive, how the stream ends and whether sending works. */
  datatype Round = Round(now: real, handshakeOk: bool, inbound: seq<(real, WsMessage)>,
                         ending: StreamEnd, writeOk: bool)

  /** Everything a pass of the drive loop changes: the client's fields, the coordinator's
      data and number of listener updates, and the frames sent. */
  datatype Pass = Pass(link: Link, data: Option<Frame>, updates: nat, outbox: seq<Value>)

  /** `_message_loop()` after `_connect`: the status request, then, on an open socket, the
      messages up to the first ERROR or CLOSE frame. Over a socket that is already closed
      the `async for` reads nothing and ends without raising. The first component says
      whether it raised. */
  function LoopStep(s: Pass, inbound: seq<(real, WsMessage)>, ending: StreamEnd, writeOk: bool,
                    token: string, port: int): (r: (bool, Pass))
    ensures r.1.outbox
         == if CanSend(s.link) && writeOk then s.outbox + [CommandFrame(StatusCommand, token)]
            else s.outbox
    ensures r.1.link.(lastMessageTime := s.link.lastMessageTime, socketOpen := s.link.socketOpen)
         == s.link
    ensures !s.link.socketOpen ==> r == (false, s)
    ensures s.link.socketOpen ==>
              && (r.0 <==> LoopRaises(inbound, ending))
              && (r.1.link.socketOpen <==> !LoopClosesSocket(inbound, ending))
              && Received(r.1.link.lastMessageTime, r.1.data, r.1.updates)
                 == DeliverAll(Received(s.link.lastMessageTime, s.data, s.updates),
                               inbound[..StopIndex(inbound)], port)
  {
    var sent := SendStep(s.link, s.outbox, StatusCommand, token, writeOk).1;
    if !s.link.socketOpen then (false, s.(outbox := sent))
    else
      var start := Received(s.link.lastMessageTime, s.data, s.updates);
      DeliverConsumed(start, inbound, port);
      var got := DeliverAll(start, Consumed(inbound), port);
      (LoopRaises(inbound, ending),
       Pass(s.link.(lastMessageTime := got.lastMessageTime,
                    socketOpen := !LoopClosesSocket(inbound, ending)),
            got.data, got.updates, sent))
  }

  /** One pass of `_run`'s loop: `_connect`; then `_message_loop` unless connecting raised;
      then `_handle_connection_error` if either raised. The first component is the delay
      the pass sleeps for, if any. */
  function PassStep(s: Pass, round: Round, token: string, port: int): (r: (Option<nat>, Pass))
  {
    PassAfter(s, ConnectStep(s.link, round.now, round.handshakeOk), round, token, port)
  }

  /** The rest of a pass, once `_connect` has given `c`. */
  function PassAfter(s: Pass, c: (bool, Link), round: Round, token: string, port: int)
    : (r: (Option<nat>, Pass))
  {
    var m := if c.0 then (true, s.(link := c.1))
             else LoopStep(s.(link := c.1), round.inbound, round.ending, round.writeOk, token, port);
    if m.0 then
      var e := ErrorStep(m.1.link);
      (e.0, m.1.(link := e.1))
    else (None, m.1)
  }

  /** `_run()` over a finite sequence of passes: the delay of each pass, and what the
      passes leave. */
  function RunSteps(s: Pass, rounds: seq<Round>, token: string, port: int)
    : (r: (seq<Option<nat>>, Pass))
    ensures |r.0| == |rounds|
    decreases |rounds|
  {
    if rounds == [] then ([], s)
    else
      var first := PassStep(s, rounds[0], token, port);
      var rest := RunSteps(first.1, rounds[1..], token, port);
      ([first.0] + rest.0, rest.1)
  }

  /** The delays `done` of the passes already made, followed by the run of the other
      `rounds` from `s`. */
  function RunAfter(done: seq<Option<nat>>, s: Pass, rounds: seq<Round>, token: string, port: int)
    : (r: (seq<Option<nat>>, Pass))
    ensures rounds == [] ==> r == (done, s)
  {
    var rest := RunSteps(s, rounds, token, port);
    assert rounds == [] ==> done + rest.0 == done;
    (done + rest.0, rest.1)
  }

  lemma RunAfterStep(done: seq<Option<nat>>, s: Pass, rounds: seq<Round>, i: nat, token: string,
                     port: int)
    requires i < |rounds|
    ensures var first := PassStep(s, rounds[i], token, port);
      RunAfter(done, s, rounds[i..], token, port)
      == RunAfter(done + [first.0], first.1, rounds[i + 1..], token, port)
  {
    assert rounds[i..][0] == rounds[i] && rounds[i..][1..] == rounds[i + 1..];
    var first := PassStep(s, rounds[i], token, port);
    var rest := RunSteps(first.1, rounds[i + 1..], token, port);
    assert done + ([first.0] + rest.0) == done + [first.0] + rest.0;
  }

  /** A pass keeps `ValidLink` and the shutdown flag, and sleeps only after counting an
      attempt, as `Reconnecting`, for the backoff of the new count. */
  lemma PassKeepsValid(s: Pass, round: Round, token: string, port: int)
    requires ValidLink(s.link)
    ensures var r := PassStep(s, round, token, port);
      && ValidLink(r.1.link) && r.1.link.shutdown == s.link.shutdown
      && (r.0.Some? ==> r.1.link.state == Reconnecting
                        && r.0 == Some(Backoff(r.1.link.reconnectAttempts)))
  {
    var c := ConnectStep(s.link, round.now, round.handshakeOk);
    ConnectKeepsValid(s.link, round.now, round.handshakeOk);
    var m := if c.0 then (true, s.(link := c.1))
             else LoopStep(s.(link := c.1), round.inbound, round.ending, round.writeOk, token, port);
    assert ValidLink(m.1.link);
    ErrorKeepsValid(m.1.link);
  }

  /** Each back-off delay lies between one second and the cap. */
  predicate DelaysBounded(delays: seq<Option<nat>>) {
    forall i :: 0 <= i < |delays| && delays[i].Some? ==> 1 <= delays[i].value <= MaxReconnectDelay
  }

  lemma DelaysBoundedCons(d: Option<nat>, rest: seq<Option<nat>>)
    requires DelaysBounded([d]) && DelaysBounded(rest)
    ensures DelaysBounded([d] + rest)
  {
    assert forall i :: 1 <= i <= |rest| ==> ([d] + rest)[i] == rest[i - 1];
  }

  /** Every back-off delay of a run lies between one second and the cap. */
  lemma {:induction false} RunDelaysBounded(s: Pass, rounds: seq<Round>, token: string, port: int)
    requires ValidLink(s.link)
    ensures DelaysBounded(RunSteps(s, rounds, token, port).0)
    decreases |rounds|
  {
    if rounds != [] {
      var first := PassStep(s, rounds[0], token, port);
      PassKeepsValid(s, rounds[0], token, port);
      assert DelaysBounded([first.0]);
      RunDelaysBounded(first.1, rounds[1..], token, port);
      DelaysBoundedCons(first.0, RunSteps(first.1, rounds[1..], token, port).0);
    }
  }

  /** A pass whose handshake succeeds: the client is `Connected` with no attempts counted,
      the status request is sent when writing works, the messages up to the first ERROR or
      CLOSE frame are delivered, and only a receive failure sends it back to reconnecting. */
  lemma ConnectedPass(s: Pass, round: Round, token: string, port: int)
    requires s.link.state != Connected && round.handshakeOk && round.ending != ReceiveFailed
    ensures var r := PassStep(s, round, token, port);
      var got := DeliverAll(Received(round.now, s.data, s.updates),
                            round.inbound[..StopIndex(round.inbound)], port);
      && r.0 == None && r.1.link.state == Connected && r.1.link.reconnectAttempts == 0
      && r.1.link.socketOpen == !LoopClosesSocket(round.inbound, round.ending)
      && r.1.outbox
         == s.outbox + (if round.writeOk then [CommandFrame(StatusCommand, token)] else [])
      && (r.1.link.lastMessageTime, r.1.data, r.1.updates)
         == (got.lastMessageTime, got.data, got.updates)
  {
    var c := ConnectStep(s.link, round.now, round.handshakeOk);
    var m := LoopStep(s.(link := c.1), round.inbound, round.ending, round.writeOk, token, port);
    assert !m.0;
  }

  /** A pass whose handshake fails from a link that is not up is exactly one of the
      `FailedRounds`: nothing is read or sent. */
  lemma FailedPass(s: Pass, round: Round, token: string, port: int)
    requires s.link.state != Connected && !round.handshakeOk
    ensures var e := ErrorStep(ConnectStep(s.link, 0.0, false).1);
      PassStep(s, round, token, port) == (e.0, s.(link := e.1))
  {
  }

  /** A client that is `Connected` over a socket that was closed, as after an ERROR or
      CLOSE frame or the end of the stream, is stuck: `_connect` returns at once, the
      status request is refused, the closed socket yields nothing, and nothing raises, so
      the pass changes nothing and does not sleep. */
  lemma StuckPass(s: Pass, round: Round, token: string, port: int)
    requires s.link.state == Connected && !s.link.socketOpen
    ensures PassStep(s, round, token, port) == (None, s)
  {
    assert ConnectStep(s.link, round.now, round.handshakeOk) == (false, s.link);
  }

  /** ... and stays stuck for every later pass. */
  lemma {:induction false} StuckRun(s: Pass, rounds: seq<Round>, token: string, port: int)
    requires s.link.state == Connected && !s.link.socketOpen
    ensures RunSteps(s, rounds, token, port).1 == s
    ensures forall k :: 0 <= k < |rounds| ==> RunSteps(s, rounds, token, port).0[k] == None
    decreases |rounds|
  {
    if rounds != [] {
      StuckPass(s, rounds[0], token, port);
      StuckRun(s, rounds[1..], token, port);
    }
  }

  /** Passes whose handshake always fails, from a client that is not connected: the
      client never connects, nothing is read or sent, and the delays are the `FailedRounds`
      delays, and so the `RetryDelays` from the attempts already counted. */
  lemma {:induction false} FailingRun(s: Pass, rounds: seq<Round>, token: string, port: int)
    requires !s.link.shutdown && s.link.state != Connected
    requires forall i :: 0 <= i < |rounds| ==> !rounds[i].handshakeOk
    ensures var r := RunSteps(s, rounds, token, port);
      && r.0 == FailedRounds(s.link, |rounds|)
      && r.0 == RetryDelays(s.link.reconnectAttempts, |rounds|)
      && !r.1.link.shutdown && r.1.link.state != Connected
      && (r.1.data, r.1.updates, r.1.outbox) == (s.data, s.updates, s.outbox)
    decreases |rounds|
  {
    FailedRoundsDelays(s.link, |rounds|);
    if rounds != [] {
      FailedPass(s, rounds[0], token, port);
      FailedRound(s.link);
      var e := ErrorStep(ConnectStep(s.link, 0.0, false).1);
      var rest := rounds[1..];
      assert forall i :: 0 <= i < |rest| ==> rest[i] == rounds[i + 1];
      FailingRun(s.(link := e.1), rest, token, port);
    }
  }

  // ---------------------------------------------------------------- the session, as written

  /** `_connect()` as written: `async_get_clientsession` is an ordinary function that
      returns the session, so awaiting its result raises `TypeError`. That happens outside
      the `try`, after the state became `Connecting` and before any handshake, and since
      `self.session` is never set it happens on every attempt: whatever the printer does,
      the call behaves like `ConnectStep` with a refused handshake. */
  function ConnectStepAsWritten(l: Link, now: real): (r: (bool, Link))
    ensures r == ConnectStep(l, now, false)
    ensures l.state != Connected ==> r.0 && r.1.state == Connecting
  {
    if l.state == Connected then (false, l) else (true, WithState(l, Connecting))
  }

  /** A pass of `_run`'s loop as written. */
  function PassStepAsWritten(s: Pass, round: Round, token: string, port: int)
    : (r: (Option<nat>, Pass))
  {
    PassAfter(s, ConnectStepAsWritten(s.link, round.now), round, token, port)
  }

  /** As written, a pass is the pass whose handshake is refused, so a client that is not
      connected stays unconnected; with the intended session, a handshake that succeeds
      connects it. */
  lemma AsWrittenPassRefused(s: Pass, round: Round, token: string, port: int)
    requires s.link.state != Connected
    ensures PassStepAsWritten(s, round, token, port)
         == PassStep(s, round.(handshakeOk := false), token, port)
    ensures PassStepAsWritten(s, round, token, port).1.link.state != Connected
    ensures round.handshakeOk && round.ending != ReceiveFailed ==>
              PassStep(s, round, token, port).1.link.state == Connected
  {
    if round.handshakeOk && round.ending != ReceiveFailed {
      ConnectedPass(s, round, token, port);
    }
  }

  /** Every round with its handshake refused. */
  function Refused(rounds: seq<Round>): (r: seq<Round>)
    ensures |r| == |rounds|
    ensures forall i :: 0 <= i < |r| ==> r[i] == rounds[i].(handshakeOk := false)
  {
    seq(|rounds|, i requires 0 <= i < |rounds| => rounds[i].(handshakeOk := false))
  }

  /** So `_run` as written never connects, whatever the printer does, and waits exactly the
      `FailedRounds` delays: 2, 4, ... 60 seconds for ten attempts, then not at all. */
  lemma AsWrittenRunNeverConnects(s: Pass, rounds: seq<Round>, token: string, port: int)
    requires !s.link.shutdown && s.link.state != Connected
    ensures RunSteps(s, Refused(rounds), token, port).1.link.state != Connected
    ensures RunSteps(s, Refused(rounds), token, port).0 == FailedRounds(s.link, |rounds|)
  {
    FailingRun(s, Refused(rounds), token, port);
  }

  /** `_poll_data()` as written: the same awaited `async_get_clientsession` raises inside
      the `try`, which turns it into `UpdateFailed` whatever the printer would answer. */
  function PollDataAsWritten(reply: PollReply): (r: Result<Option<Frame>, PyError>)
  {
    Err(UpdateFailed)
  }

  // ---------------------------------------------------------------- the classes

  /** `CrealityDataCoordinator`: the configuration, the data shown to the entities and the
      client it starts. */
  class Coordinator {
    const host: string
    const port: int
    const password: Option<string>
    const cipher: Token.Cipher
    var data: Option<Frame>
    var listenerUpdates: nat
    var wsClient: WebSocketClient?

    constructor(host: string, port: int, password: Option<string>, cipher: Token.Cipher)
      ensures this.host == host && this.port == port && this.password == password
      ensures this.cipher == cipher
      ensures data == None && listenerUpdates == 0 && wsClient == null
    {
      this.host := host;
      this.port := port;
      this.password := password;
      this.cipher := cipher;
      data := None;
      listenerUpdates := 0;
      wsClient := null;
    }

    predicate Valid()
      reads this, wsClient
    {
      wsClient != null ==>
        && wsClient.coordinator == this && wsClient.port == port
        && wsClient.password == password
        && ValidLink(wsClient.Fields())
    }

    /** `_start_websocket()`: creates and starts the client once. */
    method StartWebsocket()
      requires Valid()
      modifies this`wsClient
      ensures Valid()
      ensures old(wsClient) != null ==> wsClient == old(wsClient)
      ensures old(wsClient) == null ==>
                && wsClient != null && fresh(wsClient) && wsClient.running
                && wsClient.Fields() == InitialLink && wsClient.outbox == []
    {
      if wsClient != null {
        return;
      }
      var client := new WebSocketClient(host, port, password, cipher, this);
      client.Start();
      wsClient := client;
    }

    /** `_poll_data()` given the poll's reply: a failure becomes `UpdateFailed`, an empty
        reply falls through to `None`, any other reply is returned enriched. */
    function PollData(reply: PollReply): (r: Result<Option<Frame>, PyError>)
      ensures reply.PollFailed? <==> r == Err(UpdateFailed)
      ensures reply.Answer? && reply.msg == map[] ==> r == Ok(None)
      ensures reply.Answer? && reply.msg != map[] ==> r == Ok(Some(Enrich(reply.msg, port)))
    {
      match reply
      case PollFailed => Err(UpdateFailed)
      case Answer(msg) => if msg != map[] then Ok(Some(Enrich(msg, port))) else Ok(None)
    }

    /** The request the poll sends: the status command with a token that decodes to the
        encrypted, padded password. */
    function PollRequest(): (v: Value)
      ensures v.Obj? && v.fields.Keys == {"cmd", "token"}
      ensures v.fields["cmd"] == Str("GET_PRINT_STATUS") && v.fields["token"].Str?
      ensures Token.Base64Decode(v.fields["token"].s)
           == Some(Token.EcbEncrypt(cipher, Token.TokenKey, Token.Plaintext(password)))
    {
      Token.TokenDecodes(cipher, password);
      CommandFrame(StatusCommand, Token.GenerateToken(cipher, password))
    }

    /** `_async_update_data()`: the pushed data (or `{}`) while the client is healthy,
        otherwise the result of polling. */
    method AsyncUpdateData(now: real, reply: PollReply) returns (r: Result<Option<Frame>, PyError>)
      requires Valid()
      modifies wsClient
      ensures Valid() && wsClient == old(wsClient)
      ensures wsClient == null ==> r == PollData(reply)
      ensures wsClient != null ==>
                var h := HealthCheck(old(wsClient.Fields()), now);
                && wsClient.Fields() == h.1 && wsClient.outbox == old(wsClient.outbox)
                && wsClient.running == old(wsClient.running)
                && r == (if h.0 then Ok(Some(if HasData(data) then data.value else map[]))
                         else PollData(reply))
    {
      if wsClient == null {
        r := PollData(reply);
        return;
      }
      HealthCheckKeepsValid(wsClient.Fields(), now);
      var healthy := wsClient.IsHealthy(now);
      if !healthy {
        r := PollData(reply);
      } else {
        r := Ok(Some(if HasData(data) then data.value else map[]));
      }
    }

    /** The coordinator's `send_command(command)`: false when there is no client. */
    method SendCommand(command: string, writeOk: bool) returns (sent: bool)
      requires Valid()
      modifies wsClient
      ensures wsClient == null ==> !sent
      ensures wsClient != null ==> wsClient.Fields() == old(wsClient.Fields())
      ensures wsClient != null ==>
                (sent, wsClient.outbox)
                == SendStep(wsClient.Fields(), old(wsClient.outbox), command,
                            wsClient.AuthToken(), writeOk)
    {
      if wsClient == null {
        return false;
      }
      sent := wsClient.SendCommand(command, writeOk);
    }
  }

  /** As written, polling fails even when the printer answers, where the intended poll
      returns the answer. */
  lemma PollAsWrittenFails(c: Coordinator, msg: Frame)
    ensures PollDataAsWritten(Answer(msg)) == Err(UpdateFailed)
    ensures c.PollData(Answer(msg)).Ok?
  {
  }

  /** The reply `_poll_data` receives, or its failure. */
  datatype PollReply = PollFailed | Answer(msg: Frame)

  /** `CrealityWebSocketClient`. */
  class WebSocketClient {
    const host: string
    const port: int
    const password: Option<string>
    const cipher: Token.Cipher
    const coordinator: Coordinator
    var state: ConnectionState
    var lastMessageTime: real
    var reconnectAttempts: nat
    var shutdown: bool
    var socketOpen: bool
    var log: seq<Transition>
    /** Whether the `_run` task is alive. */
    var running: bool
    /** The frames sent on the socket, oldest first. */
    var outbox: seq<Value>

    function Fields(): Link
      reads this
    {
      Link(state, lastMessageTime, reconnectAttempts, shutdown, socketOpen, log)
    }

    function Inbox(): Received
      reads this, coordinator
    {
      Received(lastMessageTime, coordinator.data, coordinator.listenerUpdates)
    }

    /** What a pass of the drive loop reads and changes. */
    function Snapshot(): Pass
      reads this, coordinator
    {
      Pass(Fields(), coordinator.data, coordinator.listenerUpdates, outbox)
    }

    predicate Valid()
      reads this
    {
      ValidLink(Fields())
    }

    function AuthToken(): string {
      Token.GenerateToken(cipher, password)
    }

    constructor(host: string, port: int, password: Option<string>, cipher: Token.Cipher,
                coordinator: Coordinator)
      ensures this.host == host && this.port == port && this.password == password
      ensures this.cipher == cipher && this.coordinator == coordinator
      ensures Fields() == InitialLink && Valid() && !running && outbox == []
    {
      this.host := host;
      this.port := port;
      this.password := password;
      this.cipher := cipher;
      this.coordinator := coordinator;
      state := Disconnected;
      lastMessageTime := 0.0;
      reconnectAttempts := 0;
      shutdown := false;
      socketOpen := false;
      log := [];
      running := false;
      outbox := [];
    }

    /** `start()`: does nothing while `_run` is running; otherwise clears the shutdown flag
        and starts `_run`. */
    method Start()
      modifies this`shutdown, this`running
      ensures running
      ensures old(running) ==> shutdown == old(shutdown)
      ensures !old(running) ==> !shutdown
    {
      if running {
        return;
      }
      shutdown := false;
      running := true;
    }

    /** `stop()`: sets the shutdown flag, cancels `_run` and disconnects. */
    method Stop()
      requires Valid()
      modifies this`shutdown, this`running, this`state, this`log, this`socketOpen
      ensures Valid() && !running
      ensures Fields() == DisconnectStep(old(Fields()).(shutdown := true))
    {
      DisconnectKeepsValid(Fields().(shutdown := true));
      shutdown := true;
      running := false;
      Disconnect();
    }

    method SetState(s: ConnectionState)
      modifies this`state, this`log
      ensures Fields() == WithState(old(Fields()), s)
    {
      if state != s {
        log := log + [Transition(state, s)];
        state := s;
      }
    }

    method IsHealthy(now: real) returns (healthy: bool)
      modifies this`state, this`log
      ensures (healthy, Fields()) == HealthCheck(old(Fields()), now)
    {
      if state != Connected {
        return false;
      }
      if now - lastMessageTime > StaleThreshold {
        if state != Stale {
          SetState(Stale);
        }
        return false;
      }
      return true;
    }

    method Connect(now: real, handshakeOk: bool) returns (raised: bool)
      modifies this`state, this`log, this`reconnectAttempts, this`lastMessageTime, this`socketOpen
      ensures (raised, Fields()) == ConnectStep(old(Fields()), now, handshakeOk)
    {
      if state == Connected {
        return false;
      }
      SetState(Connecting);
      if !handshakeOk {
        return true;
      }
      socketOpen := true;
      SetState(Connected);
      reconnectAttempts := 0;
      lastMessageTime := now;
      raised := false;
    }

    method Disconnect()
      modifies this`state, this`log, this`socketOpen
      ensures Fields() == DisconnectStep(old(Fields()))
    {
      socketOpen := false;
      SetState(Disconnected);
    }

    /** Returns the pre-jitter delay it would sleep for, or `None` when it does not sleep. */
    method HandleConnectionError() returns (delay: Option<nat>)
      modifies this`state, this`log, this`socketOpen, this`reconnectAttempts
      ensures (delay, Fields()) == ErrorStep(old(Fields()))
    {
      Disconnect();
      if shutdown {
        return None;
      }
      if reconnectAttempts >= MaxReconnectAttempts {
        SetState(Disconnected);
        return None;
      }
      SetState(Reconnecting);
      reconnectAttempts := reconnectAttempts + 1;
      delay := Some(Backoff(reconnectAttempts));
    }

    method SendCommand(command: string, writeOk: bool) returns (sent: bool)
      modifies this`outbox
      ensures (sent, outbox) == SendStep(Fields(), old(outbox), command, AuthToken(), writeOk)
    {
      if state != Connected || !socketOpen {
        return false;
      }
      if !writeOk {
        return false;
      }
      outbox := outbox + [CommandFrame(command, AuthToken())];
      sent := true;
    }

    method HandleMessage(now: real, frame: Frame)
      modifies this`lastMessageTime, coordinator`data, coordinator`listenerUpdates
      ensures Inbox() == HandleFrame(old(Inbox()), now, frame, port)
    {
      lastMessageTime := now;
      if frame != map[] {
        coordinator.data := Some(Enrich(frame, port));
        coordinator.listenerUpdates := coordinator.listenerUpdates + 1;
      }
    }

    /** One message of the loop: a text frame holding JSON goes to `_handle_message`;
        pings, pongs and undecodable text are skipped. */
    method Receive(m: (real, WsMessage))
      modifies this`lastMessageTime, coordinator`data, coordinator`listenerUpdates
      ensures Inbox() == Deliver(old(Inbox()), m, port)
    {
      match m.1 {
        case Text(payload) =>
          if payload.Some? {
            HandleMessage(m.0, payload.value);
          }
        case _ =>
      }
    }

    /** `_message_loop()`: asks for the status, then, unless the socket is already closed,
        handles the messages until an ERROR or CLOSE frame or the end of the stream;
        returns whether it raised. */
    method MessageLoop(inbound: seq<(real, WsMessage)>, ending: StreamEnd, writeOk: bool)
      returns (raised: bool)
      modifies this`outbox, this`lastMessageTime, this`socketOpen
      modifies coordinator`data, coordinator`listenerUpdates
      ensures (raised, Snapshot()) == LoopStep(old(Snapshot()), inbound, ending, writeOk, AuthToken(), port)
      ensures !old(socketOpen) ==> !raised && Inbox() == old(Inbox())
    {
      var _ := SendCommand(StatusCommand, writeOk);
      if !socketOpen {
        return false;
      }
      var stopped := ReadMessages(inbound);
      raised := EndLoop(stopped, ending);
    }

    /** The `async for` over an open socket: the messages up to the first ERROR or CLOSE
        frame; returns whether such a frame came. */
    method ReadMessages(inbound: seq<(real, WsMessage)>) returns (stopped: bool)
      modifies this`lastMessageTime, coordinator`data, coordinator`listenerUpdates
      ensures stopped == (StopIndex(inbound) < |inbound|)
      ensures Inbox() == DeliverAll(old(Inbox()), Consumed(inbound), port)
    {
      ghost var start := Inbox();
      var i := 0;
      while i < |inbound| && !IsStop(inbound[i].1)
        invariant i <= StopIndex(inbound)
        invariant Inbox() == DeliverAll(start, inbound[..i], port)
      {
        DeliverNext(start, inbound, i, port);
        Receive(inbound[i]);
        i := i + 1;
      }
      DeliverConsumed(start, inbound, port);
      stopped := i < |inbound|;
    }

    /** How the loop ends: at an ERROR or CLOSE frame (`stopped`) or with the stream. */
    method EndLoop(stopped: bool, ending: StreamEnd) returns (raised: bool)
      modifies this`socketOpen
      ensures raised == (!stopped && ending == ReceiveFailed)
      ensures socketOpen == (old(socketOpen) && !(stopped || ending == Exhausted))
    {
      if stopped {
        socketOpen := false;
        return false;
      }
      match ending {
        case Exhausted =>
          socketOpen := false;
          raised := false;
        case ReceiveTimeout =>
          raised := false;
        case ReceiveFailed =>
          raised := true;
      }
    }

    /** One pass of `_run`'s loop: connect, run the message loop, and on an exception
        handle the connection error; returns the delay the pass sleeps for, if any. */
    method RunIteration(round: Round) returns (delay: Option<nat>)
      requires Valid() && !shutdown
      modifies this`state, this`log, this`reconnectAttempts, this`lastMessageTime
      modifies this`socketOpen, this`outbox, coordinator`data, coordinator`listenerUpdates
      ensures (delay, Snapshot()) == PassStep(old(Snapshot()), round, AuthToken(), port)
      ensures Valid() && shutdown == old(shutdown)
      ensures delay.Some? ==> state == Reconnecting && delay == Some(Backoff(reconnectAttempts))
    {
      PassKeepsValid(Snapshot(), round, AuthToken(), port);
      var raised := Connect(round.now, round.handshakeOk);
      if !raised {
        raised := MessageLoop(round.inbound, round.ending, round.writeOk);
      }
      delay := None;
      if raised {
        delay := HandleConnectionError();
      }
    }

    /** `_run()` over a finite sequence of passes; the loop does not end by itself, since
        only `stop()` sets the shutdown flag. Returns the delay of each pass, `None` for a
        pass that does not sleep. */
    method Run(rounds: seq<Round>) returns (delays: seq<Option<nat>>)
      requires Valid() && !shutdown
      modifies this`state, this`log, this`reconnectAttempts, this`lastMessageTime
      modifies this`socketOpen, this`outbox, coordinator`data, coordinator`listenerUpdates
      ensures (delays, Snapshot()) == RunSteps(old(Snapshot()), rounds, AuthToken(), port)
      ensures Valid() && !shutdown
      ensures DelaysBounded(delays)
    {
      ghost var token := AuthToken();
      ghost var start := Snapshot();
      ghost var whole := RunSteps(start, rounds, token, port);
      delays := [];
      var i := 0;
      assert rounds[i..] == rounds && [] + whole.0 == whole.0;
      while i < |rounds| && !shutdown
        invariant i <= |rounds|
        invariant Valid() && !shutdown
        invariant whole == RunAfter(delays, Snapshot(), rounds[i..], token, port)
      {
        ghost var before := Snapshot();
        RunAfterStep(delays, before, rounds, i, token, port);
        var d := RunIteration(rounds[i]);
        delays := delays + [d];
        i := i + 1;
      }
      assert rounds[i..] == [];
      RunDelaysBounded(start, rounds, token, port);
    }
  }
}
