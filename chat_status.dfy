/**
 * The React hook `useMoshiChat`: the connection status, transcript and error
 * message it exposes, driven by the calls the page makes (`connect`,
 * `disconnect`) and by the events of the WebSocket it opens. Audio devices,
 * codecs and React's scheduling are outside the model; what remains is a
 * state machine over those events.
 */
module MoshiChat {
  import opened Wrappers
  import opened Bytes
  import opened SphnFraming
  import Protocol

  // The hook's own tag constants.
  const MSG_HANDSHAKE: byte := 0x00
  const MSG_AUDIO: byte := 0x01
  const MSG_TEXT: byte := 0x02

  /** The message stored when the socket reports an error. */
  const CONNECTION_FAILED: string := "WebSocket connection failed."

  datatype ConnectionStatus = Disconnected | Connecting | Waiting | Ready | Error

  /**
   * What the hook returns (`status`, `transcript`, `error`), plus whether the
   * current socket's handlers are still live: `cleanup` nulls them and
   * closes the socket, after which nothing that socket does has an effect.
   */
  datatype ChatState = ChatState(status: ConnectionStatus, transcript: string, error: Option<string>, attached: bool)

  /** The state of a freshly mounted hook. */
  function Mounted(): ChatState
  {
    ChatState(Disconnected, "", None, false)
  }

  /**
   * What drives the hook. `SetupFailed` is the `catch` of `connect` (an
   * unsupported browser, or a codec or audio set-up that throws);
   * `SocketAttached` is the point where `connect` has created the socket and
   * installed its handlers. The last four come from that socket.
   */
  datatype Event =
    | Connect
    | SetupFailed(message: string)
    | SocketAttached
    | Opened
    | Received(data: seq<byte>)
    | SocketError
    | Closed
    | Disconnect

  predicate FromSocket(e: Event)
  {
    e.Opened? || e.Received? || e.SocketError? || e.Closed?
  }

  /** What `ws.onmessage` does with a binary message. */
  datatype Incoming = Ignored | HandshakeIn | AudioIn(packets: seq<seq<byte>>) | TextIn(utf8: seq<byte>)

  /**
   * The `switch` of `ws.onmessage`: empty messages and every tag other than
   * handshake, audio and text are ignored; an audio payload is split into
   * the Opus packets handed to the decoder.
   */
  function Classify(data: seq<byte>): (r: Incoming)
    ensures r != Ignored <==> |data| > 0 && data[0] <= MSG_TEXT
  {
    if |data| == 0 then Ignored
    else if data[0] == MSG_HANDSHAKE then HandshakeIn
    else if data[0] == MSG_AUDIO then AudioIn(DecodeFrames(data[1..]))
    else if data[0] == MSG_TEXT then TextIn(data[1..])
    else Ignored
  }

  /**
   * The hook's handling of one event; `utf8` is `TextDecoder.decode`.
   * Everything `cleanup` does to the socket is the `attached := false`.
   */
  function Step(s: ChatState, e: Event, utf8: seq<byte> -> string): (t: ChatState)
    ensures !e.Connect? ==> s.transcript <= t.transcript
    ensures FromSocket(e) && !s.attached ==> t == s
  {
    match e
    case Connect => ChatState(Connecting, "", None, false)
    case SetupFailed(message) => s.(status := Error, error := Some(message), attached := false)
    case SocketAttached => s.(attached := true)
    case Disconnect => s.(status := Disconnected, attached := false)
    case _ =>
      if !s.attached then s
      else
        match e
        case Opened => s.(status := Waiting)
        case SocketError => s.(status := Error, error := Some(CONNECTION_FAILED), attached := false)
        case Closed => s.(status := if s.status == Error then Error else Disconnected, attached := false)
        case Received(data) =>
          match Classify(data)
          case HandshakeIn => s.(status := Ready)
          case TextIn(payload) => s.(transcript := s.transcript + utf8(payload))
          case _ => s
  }

  /** The state after a sequence of events. */
  function Run(s: ChatState, events: seq<Event>, utf8: seq<byte> -> string): ChatState
    decreases |events|
  {
    if events == [] then s else Run(Step(s, events[0], utf8), events[1..], utf8)
  }

  /**
   * What the hook keeps true: an error status always comes with a message,
   * and "waiting" or "ready" is only shown while a socket is live.
   */
  ghost predicate Consistent(s: ChatState)
  {
    && (s.status == Error ==> s.error.Some?)
    && (s.status == Waiting || s.status == Ready ==> s.attached)
  }

  lemma StepKeepsConsistent(s: ChatState, e: Event, utf8: seq<byte> -> string)
    requires Consistent(s)
    ensures Consistent(Step(s, e, utf8))
  {
  }

  /** Whatever happens after mounting, the status and the error message stay consistent. */
  lemma {:induction false} RunKeepsConsistent(s: ChatState, events: seq<Event>, utf8: seq<byte> -> string)
    requires Consistent(s)
    ensures Consistent(Run(s, events, utf8))
    decreases |events|
  {
    if events != [] {
      StepKeepsConsistent(s, events[0], utf8);
      RunKeepsConsistent(Step(s, events[0], utf8), events[1..], utf8);
    }
  }

  lemma MountedIsConsistent()
    ensures Consistent(Mounted())
    ensures Mounted().status == Disconnected && Mounted().error == None
  {
  }

  /** `connect` first drops the old socket, clears the error and the transcript, and shows "connecting". */
  lemma ConnectClears(s: ChatState, utf8: seq<byte> -> string)
    ensures var t := Step(s, Connect, utf8);
            t.status == Connecting && t.error == None && t.transcript == "" && !t.attached
  {
  }

  /** A socket error shows "error" with its fixed message, and detaches the socket so its close is ignored. */
  lemma SocketErrorReports(s: ChatState, utf8: seq<byte> -> string)
    requires s.attached
    ensures var t := Step(s, SocketError, utf8);
            t.status == Error && t.error == Some(CONNECTION_FAILED) && !t.attached
    ensures Step(Step(s, SocketError, utf8), Closed, utf8).status == Error
  {
  }

  /** Empty messages, and messages whose tag is none of handshake, audio and text, change nothing. */
  lemma IgnoredMessagesChangeNothing(s: ChatState, data: seq<byte>, utf8: seq<byte> -> string)
    requires |data| == 0 || data[0] > MSG_TEXT
    ensures Step(s, Received(data), utf8) == s
  {
  }

  /** An audio message changes nothing the hook exposes: its packets only go to the decoder. */
  lemma AudioKeepsState(s: ChatState, payload: seq<byte>, utf8: seq<byte> -> string)
    ensures Step(s, Received([MSG_AUDIO] + payload), utf8) == s
  {
  }

  /** The status only becomes "ready" on a handshake message from the live socket. */
  lemma ReadyOnlyOnHandshake(s: ChatState, e: Event, utf8: seq<byte> -> string)
    requires s.status != Ready
    ensures Step(s, e, utf8).status == Ready <==>
              s.attached && e.Received? && |e.data| > 0 && e.data[0] == MSG_HANDSHAKE
  {
  }

  /** The status only becomes "waiting" when the live socket opens. */
  lemma WaitingOnlyOnOpen(s: ChatState, e: Event, utf8: seq<byte> -> string)
    requires s.status != Waiting
    ensures Step(s, e, utf8).status == Waiting <==> s.attached && e.Opened?
  {
  }

  /** Closing keeps an error status; any other status becomes "disconnected". */
  lemma CloseKeepsError(s: ChatState, utf8: seq<byte> -> string)
    requires s.attached
    ensures Step(s, Closed, utf8).status == (if s.status == Error then Error else Disconnected)
    ensures Step(s, Closed, utf8).error == s.error
  {
  }

  /** `disconnect` always ends disconnected, and keeps the last error message. */
  lemma DisconnectAlwaysDisconnects(s: ChatState, utf8: seq<byte> -> string)
    ensures Step(s, Disconnect, utf8).status == Disconnected
    ensures Step(s, Disconnect, utf8).error == s.error
    ensures !Step(s, Disconnect, utf8).attached
  {
  }

  /** Only `connect` clears the transcript; every other event keeps it as a prefix. */
  lemma TranscriptOnlyGrows(s: ChatState, e: Event, utf8: seq<byte> -> string)
    requires !e.Connect?
    ensures s.transcript <= Step(s, e, utf8).transcript
  {
  }

  /** Received text is appended, decoded, to the end of the transcript. */
  lemma TextAppends(s: ChatState, payload: seq<byte>, utf8: seq<byte> -> string)
    requires s.attached
    ensures Step(s, Received([MSG_TEXT] + payload), utf8).transcript == s.transcript + utf8(payload)
    ensures Step(s, Received([MSG_TEXT] + payload), utf8).status == s.status
  {
    assert ([MSG_TEXT] + payload)[1..] == payload;
  }

  /**
   * Once the handlers are gone, nothing the old socket does (opening late,
   * more messages, an error, the close) changes the state.
   */
  lemma {:induction false} DetachedSocketIsSilent(s: ChatState, events: seq<Event>, utf8: seq<byte> -> string)
    requires !s.attached
    requires forall i :: 0 <= i < |events| ==> FromSocket(events[i])
    ensures Run(s, events, utf8) == s
    decreases |events|
  {
    if events != [] {
      assert FromSocket(events[0]);
      assert Step(s, events[0], utf8) == s;
      DetachedSocketIsSilent(s, events[1..], utf8);
    }
  }

  /** After `disconnect`, the status stays "disconnected" whatever the old socket still delivers. */
  lemma DisconnectIsFinal(s: ChatState, events: seq<Event>, utf8: seq<byte> -> string)
    requires forall i :: 0 <= i < |events| ==> FromSocket(events[i])
    ensures Run(Step(s, Disconnect, utf8), events, utf8).status == Disconnected
  {
    DetachedSocketIsSilent(Step(s, Disconnect, utf8), events, utf8);
  }

  /** The hook's dispatch agrees with the custom client's `decodeMessage` on the tags it handles. */
  lemma ClassifyAgreesWithDecode(data: seq<byte>)
    ensures Classify(data).HandshakeIn? <==> Protocol.Decode(data).Handshake?
    ensures Classify(data).AudioIn? <==> Protocol.Decode(data).Audio?
    ensures Protocol.Decode(data).Audio? ==> Classify(data).packets == DecodeFrames(Protocol.Decode(data).data)
    ensures Classify(data).TextIn? <==> Protocol.Decode(data).Text?
    ensures Protocol.Decode(data).Text? ==> Classify(data).utf8 == Protocol.Decode(data).utf8
  {
  }

  /**
   * `enc.onPacket`: a packet is sent, tagged as audio and sphn-framed, only
   * while the socket is open.
   */
  function OutgoingAudio(packet: seq<byte>, socketOpen: bool): (msg: Option<seq<byte>>)
    ensures msg.Some? <==> socketOpen
    ensures msg.Some? ==> |msg.value| == 4 + |packet| && msg.value[0] == MSG_AUDIO && msg.value[4..] == packet
  {
    if socketOpen then Some([MSG_AUDIO] + EncodeFrame(packet)) else None
  }

  /** A packet the hook sends is received, by the same dispatch, as exactly that one packet. */
  lemma OutgoingAudioRoundTrip(packet: seq<byte>)
    requires |packet| < MAX_LEN
    ensures Classify(OutgoingAudio(packet, true).value) == AudioIn([packet])
    ensures Protocol.Decode(OutgoingAudio(packet, true).value) == Protocol.Audio(EncodeFrame(packet))
  {
    var msg := OutgoingAudio(packet, true).value;
    assert msg[1..] == EncodeFrame(packet);
    DecodeFrameRoundTrip(packet);
  }

  /**
   * The query of the socket URL: `voice_prompt`, then `text_prompt`, each
   * present only when its prompt is non-empty. Percent-encoding is left out.
   */
  function QueryParams(voicePrompt: string, textPrompt: string): (params: seq<(string, string)>)
    ensures ("voice_prompt", voicePrompt) in params <==> voicePrompt != ""
    ensures ("text_prompt", textPrompt) in params <==> textPrompt != ""
    ensures |params| == (if voicePrompt == "" then 0 else 1) + (if textPrompt == "" then 0 else 1)
    ensures forall i :: 0 <= i < |params| ==> params[i].1 != ""
    ensures |params| == 2 ==> params[0].0 == "voice_prompt"
  {
    (if voicePrompt == "" then [] else [("voice_prompt", voicePrompt)])
    + (if textPrompt == "" then [] else [("text_prompt", textPrompt)])
  }
}
