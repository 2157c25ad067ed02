/** The signalling channel of src/audio/SoftPhoneWebSocket.ts.

    SoftPhoneWebSocket owns at most one browser WebSocket at a time.  `connect`
    counts every attempt (also the ones its error listener makes) and creates
    a socket only for the first five; messages go out only while the current
    socket is OPEN; inbound messages are dispatched on their type by an
    if-chain.  The socket's events (open, message, close, error) are the
    Handle* methods, called by the environment.

    JSON text is left abstract: an inbound message arrives as its text and its
    parsed record, a TakeOver payload with its parsed record, and an outbound
    message is logged as the record `JSON.stringify` would serialise.  Emitter
    events, listener calls and log lines are appended to one event trace. */
module Signaling {
  import opened Messages

  /** WebSocket.readyState values (WHATWG WebSockets). */
  const CONNECTING: int := 0
  const OPEN: int := 1
  const CLOSING: int := 2
  const CLOSED: int := 3

  /** Normal closure, section 7.4.1 of RFC 6455. */
  const NormalClosure: int := 1000
  const CloseReason: string := "closed by user request"

  /** Connection attempts after which `connect` gives up. */
  const MaxConnectAttempts: int := 5

  /** What the object makes observable: emitter events, listener calls and log
      lines, in the order they happen. */
  datatype Event =
    | Log(text: string)
    | InboundAudioEmitted(inbound: Message)
    | HoldForHumanEmitted(payload: Option<string>)
    | EventDetectionEmitted(text: string)
    | ConnectionStateNotified(connected: bool)
    | TakeOverNotified(takeOver: TakeOverInfo)
    | HoldForHumanNotified(holdMessage: string)
    | TranscriptNotified(participantId: string, participantType: string, transcript: string)

  function ConnectUrl(hostname: string, jobId: string): string
  {
    hostname + "/api/v1/jobs/" + jobId + "/browser"
  }

  function AttemptLog(url: string): string
  {
    "attempting connection to \"" + url + "\""
  }

  function RetryLimitLog(count: nat): string
  {
    "connection retry greater than 5, end of retries. Count: \"" + DecimalString(count) + "\""
  }

  /** `message.utcNow = new Date().toISOString()`, with the clock reading as a parameter. */
  function Stamped(message: Message, utcNow: string): (m: Message)
    ensures m.utcNow == Some(utcNow)
    ensures m.(utcNow := message.utcNow) == message
  {
    message.(utcNow := Some(utcNow))
  }

  /** The ConnectionHealth reply: the probe's fields echoed under type ConnectionHealth. */
  function Echo(parsed: Message): (reply: Message)
    ensures reply.messageType == Name(ConnectionHealth)
    ensures reply.sequenceNumber == parsed.sequenceNumber && reply.payload == parsed.payload
    ensures reply.participantId == parsed.participantId && reply.participantType == parsed.participantType
    ensures reply.utcNow == None
  {
    Message(Name(ConnectionHealth), parsed.payload, parsed.sequenceNumber,
            parsed.participantId, parsed.participantType, None)
  }

  /** The branches of `handleMessage`, in the order its if-chain tries them. */
  datatype Route =
    | TakeOverRoute | TranscriptRoute | InboundAudioRoute | HoldForHumanRoute
    | EventDetectionRoute | ConnectionHealthRoute | UnrecognizedRoute

  function RouteOf(parsed: Message): Route
  {
    if parsed.messageType == Name(TakeOver) && Truthy(parsed.payload) then TakeOverRoute
    else if parsed.messageType == Name(Transcript) then TranscriptRoute
    else if parsed.messageType == Name(InboundAudio) then InboundAudioRoute
    else if parsed.messageType == Name(HoldForHuman) then HoldForHumanRoute
    else if parsed.messageType == Name(TranscriptEventDetection) then EventDetectionRoute
    else if parsed.messageType == Name(ConnectionHealth) then ConnectionHealthRoute
    else UnrecognizedRoute
  }

  /** The six message types `handleMessage` acts on. */
  predicate Handled(t: MessageType)
  {
    t == TakeOver || t == Transcript || t == InboundAudio || t == HoldForHuman
    || t == TranscriptEventDetection || t == ConnectionHealth
  }

  /** A message is unrecognised exactly when its type is none of the six
      handled ones, or it is a TakeOver whose payload is empty or null. */
  lemma UnrecognizedExactly(parsed: Message)
    ensures RouteOf(parsed) == UnrecognizedRoute <==>
      match ParseType(parsed.messageType)
      case None => true
      case Some(t) => !Handled(t) || (t == TakeOver && !Truthy(parsed.payload))
  {
    match ParseType(parsed.messageType) {
      case None =>
        forall t ensures parsed.messageType != Name(t) {
          ParseTypeIsInverse(parsed.messageType, t);
        }
      case Some(t) =>
        ParseTypeIsInverse(parsed.messageType, t);
        NamesDiffer();
    }
  }

  /** A Transcript message is always handled, whatever its fields. */
  lemma TranscriptNeverUnrecognized(parsed: Message)
    requires parsed.messageType == Name(Transcript)
    ensures RouteOf(parsed) == TranscriptRoute
  {
    NamesDiffer();
  }

  /** `sockets` holds one new socket per attempt among the first five of
      `connectCount`, and `socket` is the latest of them. */
  ghost predicate SocketHistory(sockets: seq<WebSocket>, socket: WebSocket?, connectCount: nat)
  {
    && |sockets| == (if connectCount <= MaxConnectAttempts then connectCount else MaxConnectAttempts)
    && (socket == null <==> |sockets| == 0)
    && (socket != null ==> socket == sockets[|sockets| - 1])
    && forall i, j | 0 <= i < j < |sockets| :: sockets[i] != sockets[j]
  }

  /** The browser's WebSocket, as far as the client sees it. */
  class WebSocket {
    const url: string
    const protocols: seq<string>
    /** The `connect` arguments captured by this socket's error listener. */
    const jobId: string
    const accessToken: string
    var readyState: int
    /** The messages passed to `send`, in order. */
    var sent: seq<Message>
    /** The `close(code, reason)` calls, in order. */
    var closeRequests: seq<(int, string)>

    /** `new WebSocket(url, protocols)` starts CONNECTING. */
    constructor (url: string, protocols: seq<string>, jobId: string, accessToken: string)
      ensures this.url == url && this.protocols == protocols
      ensures this.jobId == jobId && this.accessToken == accessToken
      ensures readyState == CONNECTING && sent == [] && closeRequests == []
    {
      this.url := url;
      this.protocols := protocols;
      this.jobId := jobId;
      this.accessToken := accessToken;
      readyState := CONNECTING;
      sent := [];
      closeRequests := [];
    }

    /** The opening handshake completes. */
    method Opened()
      requires readyState == CONNECTING
      modifies this
      ensures readyState == OPEN
      ensures sent == old(sent) && closeRequests == old(closeRequests)
    {
      readyState := OPEN;
    }

    /** The connection is closed, cleanly or not. */
    method Closed()
      modifies this
      ensures readyState == CLOSED
      ensures sent == old(sent) && closeRequests == old(closeRequests)
    {
      readyState := CLOSED;
    }

    /** `send`, called only while OPEN. */
    method Send(message: Message)
      requires readyState == OPEN
      modifies this
      ensures sent == old(sent) + [message]
      ensures readyState == old(readyState) && closeRequests == old(closeRequests)
    {
      sent := sent + [message];
    }

    /** `close(code, reason)`: a CONNECTING or OPEN socket starts closing; a
        CLOSING or CLOSED one is left as it is. */
    method Close(code: int, reason: string)
      modifies this
      ensures closeRequests == old(closeRequests) + [(code, reason)]
      ensures readyState == if old(readyState) <= OPEN then CLOSING else old(readyState)
      ensures sent == old(sent)
    {
      closeRequests := closeRequests + [(code, reason)];
      if readyState <= OPEN {
        readyState := CLOSING;
      }
    }
  }

  /** The mutable fields of a SoftPhoneWebSocket, as one value. */
  datatype Snapshot = Snapshot(
    connected: bool, socket: WebSocket?, takeOver: TakeOverInfo,
    hasConnectionStateListener: bool, hasTakeOverStateListener: bool,
    hasHoldForHumanListener: bool, hasTranscriptListener: bool,
    connectCount: nat, isAudioExist: bool, events: seq<Event>, sockets: seq<WebSocket>)

  class SoftPhoneWebSocket {
    /** `_connected` */
    var connected: bool
    /** `_hostname` */
    const hostname: string
    /** `_socket` */
    var socket: WebSocket?
    /** `_takeOver` */
    var takeOver: TakeOverInfo
    /** Which of the four optional listeners are set. */
    var hasConnectionStateListener: bool
    var hasTakeOverStateListener: bool
    var hasHoldForHumanListener: bool
    var hasTranscriptListener: bool
    /** `_connectCount` */
    var connectCount: nat
    /** `_isAudioExist` */
    var isAudioExist: bool
    /** Emitter events, listener calls and log lines so far. */
    var events: seq<Event>
    /** Every socket `connect` has created, oldest first. */
    ghost var sockets: seq<WebSocket>

    /** Sockets are created only by the first five attempts, each a new one,
        and the current socket is the latest. */
    ghost predicate Valid()
      reads this
    {
      SocketHistory(sockets, socket, connectCount)
    }

    /** The object's state, for stating what a method leaves unchanged. */
    ghost function Fields(): Snapshot
      reads this
    {
      Snapshot(connected, socket, takeOver, hasConnectionStateListener, hasTakeOverStateListener,
               hasHoldForHumanListener, hasTranscriptListener, connectCount, isAudioExist, events, sockets)
    }

    constructor (hostname: string)
      ensures Valid()
      ensures this.hostname == hostname
      ensures !connected && socket == null && takeOver == NoTakeOver
      ensures !hasConnectionStateListener && !hasTakeOverStateListener
      ensures !hasHoldForHumanListener && !hasTranscriptListener
      ensures connectCount == 0 && !isAudioExist && events == [] && sockets == []
    {
      this.hostname := hostname;
      connected := false;
      socket := null;
      takeOver := NoTakeOver;
      hasConnectionStateListener := false;
      hasTakeOverStateListener := false;
      hasHoldForHumanListener := false;
      hasTranscriptListener := false;
      connectCount := 0;
      isAudioExist := false;
      events := [];
      sockets := [];
    }

    /** `takeOverState()` */
    function TakeOverState(): TakeOverInfo
      reads this
    {
      takeOver
    }

    /** `isAudioExist()` */
    function IsAudioExist(): bool
      reads this
    {
      isAudioExist
    }

    /** `connect`: logs the attempt and counts it; past the fifth attempt logs
        the end of retries and stops, otherwise creates a socket for the job
        with the token as subprotocol and marks the object connected at once. */
    method Connect(jobId: string, accessToken: string)
      requires Valid()
      modifies this
      ensures Valid() && |sockets| <= MaxConnectAttempts
      ensures connectCount == old(connectCount) + 1
      ensures connectCount > MaxConnectAttempts ==>
        && events == old(events) + [Log(AttemptLog(ConnectUrl(hostname, jobId))), Log(RetryLimitLog(connectCount))]
        && socket == old(socket) && connected == old(connected) && sockets == old(sockets)
      ensures connectCount <= MaxConnectAttempts ==>
        && events == old(events) + [Log(AttemptLog(ConnectUrl(hostname, jobId)))]
        && socket != null && fresh(socket) && sockets == old(sockets) + [socket]
        && socket.url == ConnectUrl(hostname, jobId) && socket.protocols == ["access_token", accessToken]
        && socket.jobId == jobId && socket.accessToken == accessToken
        && socket.readyState == CONNECTING && socket.sent == [] && socket.closeRequests == []
        && connected
      ensures takeOver == old(takeOver) && isAudioExist == old(isAudioExist)
      ensures hasConnectionStateListener == old(hasConnectionStateListener)
      ensures hasTakeOverStateListener == old(hasTakeOverStateListener)
      ensures hasHoldForHumanListener == old(hasHoldForHumanListener)
      ensures hasTranscriptListener == old(hasTranscriptListener)
    {
      var url := ConnectUrl(hostname, jobId);
      events := events + [Log(AttemptLog(url))];
      connectCount := connectCount + 1;
      if connectCount > MaxConnectAttempts {
        events := events + [Log(RetryLimitLog(connectCount))];
        return;
      }
      var webSocket := new WebSocket(url, ["access_token", accessToken], jobId, accessToken);
      socket := webSocket;
      sockets := sockets + [webSocket];
      connected := true;
    }

    /** `disconnect`: asks the current socket, if any, for a normal closure. */
    method Disconnect()
      modifies socket
      ensures socket != null ==>
        && socket.closeRequests == old(socket.closeRequests) + [(NormalClosure, CloseReason)]
        && socket.readyState == (if old(socket.readyState) <= OPEN then CLOSING else old(socket.readyState))
        && socket.sent == old(socket.sent)
    {
      if socket != null {
        socket.Close(NormalClosure, CloseReason);
      }
    }

    /** The error listener of socket `failed`: disconnects the current socket,
        then connects again with the job and token `failed` was created for. */
    method HandleError(failed: WebSocket)
      requires Valid()
      modifies this, socket
      ensures Valid()
      ensures old(socket) != null ==>
        && old(socket).closeRequests == old(socket.closeRequests) + [(NormalClosure, CloseReason)]
        && old(socket).readyState == (if old(socket.readyState) <= OPEN then CLOSING else old(socket.readyState))
        && old(socket).sent == old(socket.sent)
      ensures connectCount == old(connectCount) + 1
      ensures connectCount <= MaxConnectAttempts ==>
        && events == old(events) + [Log(AttemptLog(ConnectUrl(hostname, failed.jobId)))]
        && socket != null && fresh(socket) && sockets == old(sockets) + [socket]
        && socket.url == ConnectUrl(hostname, failed.jobId)
        && socket.protocols == ["access_token", failed.accessToken]
        && socket.jobId == failed.jobId && socket.accessToken == failed.accessToken
        && socket.readyState == CONNECTING && socket.sent == [] && socket.closeRequests == []
        && connected
      ensures connectCount > MaxConnectAttempts ==>
        && events == old(events) + [Log(AttemptLog(ConnectUrl(hostname, failed.jobId))), Log(RetryLimitLog(connectCount))]
        && socket == old(socket) && connected == old(connected) && sockets == old(sockets)
      ensures takeOver == old(takeOver) && isAudioExist == old(isAudioExist)
      ensures hasConnectionStateListener == old(hasConnectionStateListener)
      ensures hasTakeOverStateListener == old(hasTakeOverStateListener)
      ensures hasHoldForHumanListener == old(hasHoldForHumanListener)
      ensures hasTranscriptListener == old(hasTranscriptListener)
    {
      Disconnect();
      Connect(failed.jobId, failed.accessToken);
    }

    /** `sendMessage`: stamps and transmits the message only when a socket
        exists and is OPEN; otherwise nothing is sent. */
    method SendMessage(message: Message, utcNow: string)
      modifies socket
      ensures socket != null ==>
        && socket.sent == old(socket.sent) + (if old(socket.readyState) == OPEN then [Stamped(message, utcNow)] else [])
        && socket.readyState == old(socket.readyState)
        && socket.closeRequests == old(socket.closeRequests)
    {
      if socket != null && socket.readyState == OPEN {
        socket.Send(Stamped(message, utcNow));
      }
    }

    /** `hangup` */
    method Hangup(utcNow: string)
      modifies socket
      ensures socket != null ==>
        && socket.sent == old(socket.sent)
           + (if old(socket.readyState) == OPEN then [Stamped(Command(MessageType.Hangup, None), utcNow)] else [])
        && socket.readyState == old(socket.readyState)
        && socket.closeRequests == old(socket.closeRequests)
    {
      SendMessage(Command(MessageType.Hangup, None), utcNow);
    }

    /** `synthesizeSpeech(text)` */
    method SynthesizeSpeech(text: string, utcNow: string)
      modifies socket
      ensures socket != null ==>
        && socket.sent == old(socket.sent)
           + (if old(socket.readyState) == OPEN then [Stamped(Command(MessageType.SynthesizeSpeech, Some(text)), utcNow)] else [])
        && socket.readyState == old(socket.readyState)
        && socket.closeRequests == old(socket.closeRequests)
    {
      SendMessage(Command(MessageType.SynthesizeSpeech, Some(text)), utcNow);
    }

    /** `synthesizeTouchTones(digits)` */
    method SynthesizeTouchTones(digits: string, utcNow: string)
      modifies socket
      ensures socket != null ==>
        && socket.sent == old(socket.sent)
           + (if old(socket.readyState) == OPEN then [Stamped(Command(SynthesizeTouchTone, Some(digits)), utcNow)] else [])
        && socket.readyState == old(socket.readyState)
        && socket.closeRequests == old(socket.closeRequests)
    {
      SendMessage(Command(SynthesizeTouchTone, Some(digits)), utcNow);
    }

    /** `agentTakeOver(takeOver = BrowserTakeOver)`: the payload is the JSON text
        of the TakeOver. */
    method AgentTakeOver(utcNow: string, request: TakeOverInfo := BrowserTakeOver)
      modifies socket
      ensures socket != null ==>
        && socket.sent == old(socket.sent)
           + (if old(socket.readyState) == OPEN
              then [Stamped(Command(MessageType.AgentTakeOver, Some(TakeOverJson(request))), utcNow)] else [])
        && socket.readyState == old(socket.readyState)
        && socket.closeRequests == old(socket.closeRequests)
    {
      SendMessage(Command(MessageType.AgentTakeOver, Some(TakeOverJson(request))), utcNow);
    }

    /** The emitter's OutboundAudio handler: forwards the frame. */
    method HandleOutboundAudio(message: Message, utcNow: string)
      modifies socket
      ensures socket != null ==>
        && socket.sent == old(socket.sent) + (if old(socket.readyState) == OPEN then [Stamped(message, utcNow)] else [])
        && socket.readyState == old(socket.readyState)
        && socket.closeRequests == old(socket.closeRequests)
    {
      SendMessage(message, utcNow);
    }

    /** The four listener setters: each sets its listener and nothing else. */
    method SetConnectionStateListener()
      modifies this
      ensures Fields() == old(Fields()).(hasConnectionStateListener := true)
    {
      hasConnectionStateListener := true;
    }

    method SetTakeOverStateListener()
      modifies this
      ensures Fields() == old(Fields()).(hasTakeOverStateListener := true)
    {
      hasTakeOverStateListener := true;
    }

    method SetHoldForHumanListener()
      modifies this
      ensures Fields() == old(Fields()).(hasHoldForHumanListener := true)
    {
      hasHoldForHumanListener := true;
    }

    method SetTranscriptListener()
      modifies this
      ensures Fields() == old(Fields()).(hasTranscriptListener := true)
    {
      hasTranscriptListener := true;
    }

    /** `handleOpen`: connected, and the listener (if set) hears true. */
    method HandleOpen()
      modifies this
      ensures Fields() == old(Fields()).(connected := true,
        events := old(events) + if hasConnectionStateListener then [ConnectionStateNotified(true)] else [])
    {
      connected := true;
      if hasConnectionStateListener {
        events := events + [ConnectionStateNotified(true)];
      }
    }

    /** `handleClose`: disconnected, the listener (if set) hears false, and the
        closure is logged. */
    method HandleClose()
      modifies this
      ensures Fields() == old(Fields()).(connected := false,
        events := old(events)
          + (if hasConnectionStateListener then [ConnectionStateNotified(false)] else [])
          + [Log("connection closed")])
    {
      connected := false;
      if hasConnectionStateListener {
        events := events + [ConnectionStateNotified(false)];
      }
      events := events + [Log("connection closed")];
    }

    /** `handleMessage`: `data` is the frame's text and `parsed` its JSON
        parse; `payloadTakeOver` is the parse of a TakeOver payload. */
    method HandleMessage(data: string, parsed: Message, payloadTakeOver: TakeOverInfo, utcNow: string)
      requires Valid()
      modifies this, socket
      ensures Valid()
      ensures connected == old(connected) && socket == old(socket)
      ensures connectCount == old(connectCount) && sockets == old(sockets)
      ensures hasConnectionStateListener == old(hasConnectionStateListener)
      ensures hasTakeOverStateListener == old(hasTakeOverStateListener)
      ensures hasHoldForHumanListener == old(hasHoldForHumanListener)
      ensures hasTranscriptListener == old(hasTranscriptListener)
      ensures takeOver == (if RouteOf(parsed) == TakeOverRoute then payloadTakeOver else old(takeOver))
      ensures isAudioExist == (old(isAudioExist) || RouteOf(parsed) == InboundAudioRoute)
      ensures RouteOf(parsed) == TakeOverRoute ==>
        events == old(events) + (if old(hasTakeOverStateListener) then [TakeOverNotified(payloadTakeOver)] else [])
      ensures RouteOf(parsed) == TranscriptRoute ==>
        events == old(events)
          + (if old(hasTranscriptListener) && Truthy(parsed.participantId) && Truthy(parsed.participantType) && Truthy(parsed.payload)
             then [TranscriptNotified(parsed.participantId.value, parsed.participantType.value, parsed.payload.value)]
             else [])
      ensures RouteOf(parsed) == InboundAudioRoute ==> events == old(events) + [InboundAudioEmitted(parsed)]
      ensures RouteOf(parsed) == HoldForHumanRoute ==>
        events == old(events) + [HoldForHumanEmitted(parsed.payload)]
          + (if old(hasHoldForHumanListener) && Truthy(parsed.payload) then [HoldForHumanNotified(parsed.payload.value)] else [])
      ensures RouteOf(parsed) == EventDetectionRoute ==>
        events == old(events) + [EventDetectionEmitted("event detection available")]
      ensures RouteOf(parsed) == ConnectionHealthRoute ==> events == old(events)
      ensures RouteOf(parsed) == UnrecognizedRoute ==> events == old(events) + [Log("unrecognized message: " + data)]
      ensures socket != null ==>
        && socket.sent == old(socket.sent)
           + (if RouteOf(parsed) == ConnectionHealthRoute && old(socket.readyState) == OPEN
              then [Stamped(Echo(parsed), utcNow)] else [])
        && socket.readyState == old(socket.readyState)
        && socket.closeRequests == old(socket.closeRequests)
    {
      ghost var route := RouteOf(parsed);
      if parsed.messageType == Name(TakeOver) && Truthy(parsed.payload) {
        assert route == TakeOverRoute;
        takeOver := payloadTakeOver;
        if hasTakeOverStateListener {
          events := events + [TakeOverNotified(takeOver)];
        }
        return;
      }

      if parsed.messageType == Name(Transcript) {
        assert route == TranscriptRoute;
        if hasTranscriptListener && Truthy(parsed.participantId) && Truthy(parsed.participantType) && Truthy(parsed.payload) {
          events := events + [TranscriptNotified(parsed.participantId.value, parsed.participantType.value, parsed.payload.value)];
        }
        return;
      }

      if parsed.messageType == Name(InboundAudio) {
        assert route == InboundAudioRoute;
        if !isAudioExist {
          isAudioExist := true;
        }
        events := events + [InboundAudioEmitted(parsed)];
        return;
      }

      if parsed.messageType == Name(HoldForHuman) {
        assert route == HoldForHumanRoute;
        events := events + [HoldForHumanEmitted(parsed.payload)];
        if hasHoldForHumanListener && Truthy(parsed.payload) {
          events := events + [HoldForHumanNotified(parsed.payload.value)];
        }
        return;
      }

      if parsed.messageType == Name(TranscriptEventDetection) {
        assert route == EventDetectionRoute;
        events := events + [EventDetectionEmitted("event detection available")];
        return;
      }

      if parsed.messageType == Name(ConnectionHealth) {
        assert route == ConnectionHealthRoute;
        var message := Echo(parsed);
        SendMessage(message, utcNow);
        return;
      }

      assert route == UnrecognizedRoute;
      events := events + [Log("unrecognized message: " + data)];
    }
  }
}
