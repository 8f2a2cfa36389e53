/**
 * The binary WebSocket message codec of the custom client: the first byte of
 * every message is its type tag, the remaining bytes are its payload.
 * Text, error and metadata payloads are kept as the raw bytes that the
 * client hands to its UTF-8 (and JSON) decoder.
 */
module Protocol {
  import opened Wrappers
  import opened Bytes

  // The `MSG` tag table.
  const HANDSHAKE: byte := 0x00
  const AUDIO: byte := 0x01
  const TEXT: byte := 0x02
  const CONTROL: byte := 0x03
  const METADATA: byte := 0x04
  const ERROR: byte := 0x05
  const PING: byte := 0x06

  /** The four names of the `CONTROL_ACTION` table. */
  datatype Action = Start | EndTurn | Pause | Restart

  /** `CONTROL_ACTION[a]`. */
  function ActionCode(a: Action): (c: byte)
    ensures c <= 3
  {
    match a
    case Start => 0x00
    case EndTurn => 0x01
    case Pause => 0x02
    case Restart => 0x03
  }

  /**
   * `CONTROL_ACTION_REV[b]`: the action whose code is `b`; `None` when the
   * byte is missing or names no action (the decoder then says 'unknown').
   */
  function ActionOfCode(b: Option<byte>): (r: Option<Action>)
    ensures r.Some? <==> b.Some? && b.value <= 3
    ensures r.Some? ==> ActionCode(r.value) == b.value
  {
    match b
    case None => None
    case Some(c) =>
      if c == 0x00 then Some(Start)
      else if c == 0x01 then Some(EndTurn)
      else if c == 0x02 then Some(Pause)
      else if c == 0x03 then Some(Restart)
      else None
  }

  /** The records `decodeMessage` returns. */
  datatype Message =
    | Handshake
    | Audio(data: seq<byte>)
    | Text(utf8: seq<byte>)
    | Control(action: Option<Action>)   // None is the action 'unknown'
    | Metadata(json: seq<byte>)
    | ErrorText(utf8: seq<byte>)
    | Ping
    | Unknown(rawType: Option<byte>)    // None is JavaScript's undefined (empty input)

  function EncodeHandshake(): (msg: seq<byte>)
    ensures |msg| == 3 && Decode(msg) == Handshake
  {
    [HANDSHAKE, 0x00, 0x00]
  }

  function EncodeAudio(data: seq<byte>): (msg: seq<byte>)
    ensures |msg| == 1 + |data|
    ensures msg[0] == AUDIO && msg[1..] == data
  {
    [AUDIO] + data
  }

  function EncodeControl(a: Action): (msg: seq<byte>)
    ensures |msg| == 2 && Decode(msg) == Control(Some(a))
  {
    [CONTROL, ActionCode(a)]
  }

  /** `encodeMetadata`, taking the bytes that `JSON.stringify` and the UTF-8 encoder produce. */
  function EncodeMetadata(json: seq<byte>): (msg: seq<byte>)
    ensures |msg| == 1 + |json|
    ensures msg[0] == METADATA && msg[1..] == json
  {
    [METADATA] + json
  }

  function EncodePing(): (msg: seq<byte>)
    ensures |msg| == 1 && Decode(msg) == Ping
  {
    [PING]
  }

  /** `decodeMessage`: dispatch on byte 0, the payload is every byte after it. */
  function Decode(data: seq<byte>): (m: Message)
    ensures Tag(m) == (if |data| == 0 then None else Some(data[0]))
    ensures m.Control? ==> m.action == (if |data| < 2 then None else ActionOfCode(Some(data[1])))
  {
    if |data| == 0 then Unknown(None)
    else
      var tag, payload := data[0], data[1..];
      if tag == HANDSHAKE then Handshake
      else if tag == AUDIO then Audio(payload)
      else if tag == TEXT then Text(payload)
      else if tag == CONTROL then
        Control(ActionOfCode(if |payload| == 0 then None else Some(payload[0])))
      else if tag == METADATA then Metadata(payload)
      else if tag == ERROR then ErrorText(payload)
      else if tag == PING then Ping
      else Unknown(Some(tag))
  }

  /** The tag byte a message of this kind carries on the wire. */
  function Tag(m: Message): Option<byte>
  {
    match m
    case Handshake => Some(HANDSHAKE)
    case Audio(_) => Some(AUDIO)
    case Text(_) => Some(TEXT)
    case Control(_) => Some(CONTROL)
    case Metadata(_) => Some(METADATA)
    case ErrorText(_) => Some(ERROR)
    case Ping => Some(PING)
    case Unknown(t) => t
  }

  /** Messages carrying bytes carry exactly the bytes after the tag. */
  lemma DecodeKeepsPayload(data: seq<byte>)
    requires |data| > 0 && data[0] in {AUDIO, TEXT, METADATA, ERROR}
    ensures Decode(data) == Audio(data[1..]) || Decode(data) == Text(data[1..])
         || Decode(data) == Metadata(data[1..]) || Decode(data) == ErrorText(data[1..])
  {
  }

  lemma HandshakeRoundTrip()
    ensures EncodeHandshake() == [0x00, 0x00, 0x00]
    ensures Decode(EncodeHandshake()) == Handshake
  {
  }

  lemma AudioRoundTrip(data: seq<byte>)
    ensures Decode(EncodeAudio(data)) == Audio(data)
  {
  }

  lemma MetadataRoundTrip(json: seq<byte>)
    ensures Decode(EncodeMetadata(json)) == Metadata(json)
  {
  }

  lemma PingRoundTrip()
    ensures EncodePing() == [0x06]
    ensures Decode(EncodePing()) == Ping
  {
  }

  lemma ControlRoundTrip(a: Action)
    ensures EncodeControl(a) == [0x03, ActionCode(a)]
    ensures Decode(EncodeControl(a)) == Control(Some(a))
  {
  }

  /** The codes are distinct, so the reverse table is a true inverse. */
  lemma ActionCodeInjective(a: Action, b: Action)
    ensures ActionCode(a) == ActionCode(b) <==> a == b
  {
  }

  /** A control message with no action byte, or one above 0x03, decodes to 'unknown'. */
  lemma UnknownControlAction(data: seq<byte>)
    requires |data| > 0 && data[0] == CONTROL
    requires |data| == 1 || data[1] > 0x03
    ensures Decode(data) == Control(None)
  {
  }

  /** Any tag above 0x06 decodes to `{type: 'unknown', rawType: tag}`. */
  lemma UnknownTag(data: seq<byte>)
    requires |data| > 0 && data[0] > PING
    ensures Decode(data) == Unknown(Some(data[0]))
  {
  }
}
